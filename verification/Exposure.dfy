/** internal/workflow/controller/exposure_controller.go: publishing a Workflow as a kagent Agent under a
    finalizer, with a crash possible between any two API calls. */
module Exposure {
  import opened Wrappers

  datatype Labels = Labels(ns: string, name: string, uid: string)

  /** A kagent Agent. `ours` tells that this reconciler created it; the cluster does not record that. */
  datatype Agent = Agent(labels: Labels, spec: string, version: nat, ours: bool)

  /** `exposable` stands for spec.expose.kagent being set and the inputs being satisfiable. */
  datatype Workflow = Workflow(uid: string, finalizer: bool, exposable: bool, deleting: bool, version: nat)

  /** The identity of the Workflow under reconciliation and its computed Agent name. */
  datatype Config = Config(ns: string, name: string, agentName: string)

  /** Between two API calls the reconciler knows the Workflow as it read it. */
  datatype Control =
    | Idle
    | Deleting(wf: Workflow)     // teardown: about to delete the Agent
    | Releasing(wf: Workflow)    // teardown: about to remove the finalizer
    | Guarding(wf: Workflow)     // about to add the finalizer
    | Upserting(wf: Workflow)    // finalizer in place: RBAC, then about to read the Agent
    | Creating(wf: Workflow)
    | Updating(wf: Workflow, read: Agent)
    | Listing(wf: Workflow)
    | Pruning(wf: Workflow, stale: map<string, Agent>)

  datatype Cluster = Cluster(wf: Option<Workflow>, agents: map<string, Agent>, crd: bool, control: Control)

  const EMPTY := Cluster(None, map[], true, Idle)

  predicate ManagedBy(a: Agent, c: Config, wf: Workflow) {
    a.labels == Labels(c.ns, c.name, wf.uid)
  }

  datatype Event =
    // the reconciler, one API call at a time
    | ReadWorkflow(imageSet: bool)
    | DeleteAgent
    | RemoveFinalizer
    | AddFinalizer
    | ReadAgent
    | CreateAgent(spec: string)
    | UpdateAgent(spec: string)
    | ListAgents
    | PruneAgent(name: string)
    | Finish
    | Crash  // also any API call that fails
    // everyone else
    | UserCreates(uid: string, exposable: bool)
    | UserEdits(exposable: bool)
    | UserDeletes
    | Collected  // the API server drops a deleted Workflow without finalizer
    | AgentEdited(name: string, agent: Agent)
    | AgentRemoved(name: string)
    | CRDInstalled
    | CRDRemoved

  ghost predicate Enabled(s: Cluster, e: Event, c: Config) {
    match e
    case ReadWorkflow(_) => s.control.Idle?
    case DeleteAgent => s.control.Deleting?
    case RemoveFinalizer => s.control.Releasing? && Current(s, s.control.wf)
    case AddFinalizer => s.control.Guarding? && Current(s, s.control.wf)
    case ReadAgent => s.control.Upserting? && s.crd
    case CreateAgent(_) => s.control.Creating? && s.crd && c.agentName !in s.agents
    case UpdateAgent(_) => s.control.Updating? && c.agentName in s.agents && s.agents[c.agentName] == s.control.read
    case ListAgents => s.control.Listing? && s.crd
    case PruneAgent(name) => s.control.Pruning? && name in s.control.stale
    case Finish => s.control.Pruning? && s.control.stale == map[]
    case Crash => true
    case UserCreates(_, _) => s.wf.None?
    case UserEdits(_) => s.wf.Some?
    case UserDeletes => s.wf.Some?
    case Collected => s.wf.Some? && s.wf.value.deleting && !s.wf.value.finalizer
    case AgentEdited(name, agent) => s.crd && agent.ours == (name in s.agents && s.agents[name].ours)
    case AgentRemoved(name) => name in s.agents
    case CRDInstalled => true
    case CRDRemoved => true
  }

  /** An Update is accepted only for the version that was read. */
  ghost predicate Current(s: Cluster, read: Workflow) {
    s.wf == Some(read)
  }

  ghost function Apply(s: Cluster, e: Event, c: Config): Cluster
    requires Enabled(s, e, c)
  {
    match e
    case ReadWorkflow(imageSet) =>
      if s.wf.None? then s
      else
        var wf := s.wf.value;
        if !wf.exposable || wf.deleting || !imageSet then s.(control := if wf.finalizer then Deleting(wf) else Idle)
        else s.(control := if wf.finalizer then Upserting(wf) else Guarding(wf))
    // A missing Agent or CRD is nothing to clean up. The delete is by name, whoever owns it.
    case DeleteAgent => s.(agents := Without(s.agents, c.agentName), control := Releasing(s.control.wf))
    case RemoveFinalizer =>
      s.(wf := Some(s.control.wf.(finalizer := false, version := s.control.wf.version + 1)), control := Idle)
    case AddFinalizer =>
      var wf := s.control.wf.(finalizer := true, version := s.control.wf.version + 1);
      s.(wf := Some(wf), control := Upserting(wf))
    case ReadAgent =>
      var wf := s.control.wf;
      if c.agentName !in s.agents then s.(control := Creating(wf))
      else if !ManagedBy(s.agents[c.agentName], c, wf) then s.(control := Idle)  // refuses to overwrite it
      else s.(control := Updating(wf, s.agents[c.agentName]))
    case CreateAgent(spec) =>
      s.(agents := s.agents[c.agentName := Agent(Labels(c.ns, c.name, s.control.wf.uid), spec, 0, true)],
         control := Listing(s.control.wf))
    case UpdateAgent(spec) =>
      var a := s.control.read;
      s.(agents := s.agents[c.agentName := a.(spec := spec, labels := Labels(c.ns, c.name, s.control.wf.uid),
                                              version := a.version + 1)],
         control := Listing(s.control.wf))
    case ListAgents =>
      s.(control := Pruning(s.control.wf,
                            map n | n in s.agents && n != c.agentName && ManagedBy(s.agents[n], c, s.control.wf) ::
                              s.agents[n]))
    case PruneAgent(name) =>
      s.(agents := Without(s.agents, name), control := Pruning(s.control.wf, Without(s.control.stale, name)))
    case Finish => s.(control := Idle)
    case Crash => s.(control := Idle)
    case UserCreates(uid, exposable) => s.(wf := Some(Workflow(uid, false, exposable, false, 0)))
    case UserEdits(exposable) => s.(wf := Some(s.wf.value.(exposable := exposable, version := s.wf.value.version + 1)))
    case UserDeletes => s.(wf := Some(s.wf.value.(deleting := true, version := s.wf.value.version + 1)))
    case Collected => s.(wf := None)
    case AgentEdited(name, agent) => s.(agents := s.agents[name := agent])
    case AgentRemoved(name) => s.(agents := Without(s.agents, name))
    case CRDInstalled => s.(crd := true)
    case CRDRemoved => s.(crd := false, agents := map[])
  }

  ghost predicate IsRun(ss: seq<Cluster>, es: seq<Event>, c: Config) {
    && |ss| == |es| + 1 && ss[0] == EMPTY
    && forall i :: 0 <= i < |es| ==> Enabled(ss[i], es[i], c) && ss[i + 1] == Apply(ss[i], es[i], c)
  }

  // ---------------------------------------------------------------- crash safety

  ghost predicate OursExists(s: Cluster, c: Config) {
    c.agentName in s.agents && s.agents[c.agentName].ours
  }

  ghost predicate Guarded(s: Cluster) {
    s.wf.Some? && s.wf.value.finalizer
  }

  /** While it may still create an Agent the reconciler knows that the finalizer is set, and between the
      two teardown calls there is no Agent of its own. */
  ghost predicate Inv(s: Cluster, c: Config) {
    && (OursExists(s, c) ==> Guarded(s))
    && (s.control.Deleting? || s.control.Upserting? || s.control.Creating? || s.control.Updating? ==> Guarded(s))
    && (s.control.Releasing? ==> !OursExists(s, c))
    && (s.control.Updating? ==> ManagedBy(s.control.read, c, s.control.wf))
    && (s.control.Pruning? ==> c.agentName !in s.control.stale)
    && (s.control.Pruning? ==> forall n :: n in s.control.stale ==> ManagedBy(s.control.stale[n], c, s.control.wf))
  }

  lemma StepKeepsInv(s: Cluster, e: Event, c: Config)
    requires Inv(s, c) && Enabled(s, e, c)
    ensures Inv(Apply(s, e, c), c)
  {
  }

  /** In every state, a crash between any two API calls included, an Agent this reconciler created under
      the Workflow's computed name exists only while the Workflow carries the finalizer. */
  lemma {:induction false} CreatedAgentIsGuarded(ss: seq<Cluster>, es: seq<Event>, c: Config, i: nat)
    requires IsRun(ss, es, c) && i < |ss|
    ensures Inv(ss[i], c)
    ensures OursExists(ss[i], c) ==> Guarded(ss[i])
  {
    if i > 0 {
      CreatedAgentIsGuarded(ss, es, c, i - 1);
      StepKeepsInv(ss[i - 1], es[i - 1], c);
    }
  }

  /** So a Workflow that is gone, or free to go, leaves no Agent of the reconciler's behind. */
  lemma NothingLeftBehind(ss: seq<Cluster>, es: seq<Event>, c: Config, i: nat)
    requires IsRun(ss, es, c) && i < |ss|
    ensures ss[i].wf.None? || !ss[i].wf.value.finalizer ==> !OursExists(ss[i], c)
  {
    CreatedAgentIsGuarded(ss, es, c, i);
  }

  // ---------------------------------------------------------------- what others decide

  datatype Wanted = Wanted(uid: string, exposable: bool, deleting: bool)

  /** The Workflow as its users have left it, None before it is created and after it was collected. */
  ghost function LastWanted(es: seq<Event>): Option<Wanted> {
    if es == [] then None
    else
      var before := LastWanted(es[..|es| - 1]);
      match es[|es| - 1]
      case UserCreates(uid, exposable) => Some(Wanted(uid, exposable, false))
      case UserEdits(exposable) => if before.None? then None else Some(before.value.(exposable := exposable))
      case UserDeletes => if before.None? then None else Some(before.value.(deleting := true))
      case Collected => None
      case _ => before
  }

  ghost function Installed(es: seq<Event>): bool {
    if es == [] then true
    else
      match es[|es| - 1]
      case CRDInstalled => true
      case CRDRemoved => false
      case _ => Installed(es[..|es| - 1])
  }

  ghost function WantedOf(s: Cluster): Option<Wanted> {
    if s.wf.None? then None else Some(Wanted(s.wf.value.uid, s.wf.value.exposable, s.wf.value.deleting))
  }

  /** The reconciler never changes what the users decide: no edit made while a pass is under way is lost.
      There are no Agents without their CRD. */
  lemma {:induction false} WorkflowIsAsWanted(ss: seq<Cluster>, es: seq<Event>, c: Config, i: nat)
    requires IsRun(ss, es, c) && i < |ss|
    ensures WantedOf(ss[i]) == LastWanted(es[..i])
    ensures ss[i].crd == Installed(es[..i]) && (!ss[i].crd ==> ss[i].agents == map[])
  {
    if i > 0 {
      hide Apply, Enabled, WantedOf;
      WorkflowIsAsWanted(ss, es, c, i - 1);
      assert es[..i][..i - 1] == es[..i - 1];
      StepWanted(ss[i - 1], es[i - 1], c);
    } else {
      assert WantedOf(EMPTY) == None;
    }
  }

  lemma StepWanted(s: Cluster, e: Event, c: Config)
    requires Enabled(s, e, c) && (!s.crd ==> s.agents == map[])
    ensures var s', before := Apply(s, e, c), WantedOf(s);
            && (!s'.crd ==> s'.agents == map[])
            && s'.crd == (e.CRDInstalled? || (s.crd && !e.CRDRemoved?))
            && WantedOf(s') == match e
                               case UserCreates(uid, exposable) => Some(Wanted(uid, exposable, false))
                               case UserEdits(exposable) => Some(before.value.(exposable := exposable))
                               case UserDeletes => Some(before.value.(deleting := true))
                               case Collected => None
                               case _ => before
  {
  }

  /** A crash, or a call that fails, ends the pass and changes nothing else; the next one starts afresh. */
  lemma CrashEndsPass(s: Cluster, c: Config)
    ensures var s' := Apply(s, Crash, c);
            s' == s.(control := s'.control) && Enabled(s', ReadWorkflow(true), c) && Enabled(s', ReadWorkflow(false), c)
  {
  }

  /** Without the CRD no pass gets as far as an Agent. */
  lemma StopsWithoutCRD(s: Cluster, spec: string, c: Config)
    requires !s.crd
    ensures !Enabled(s, ReadAgent, c) && !Enabled(s, CreateAgent(spec), c) && !Enabled(s, ListAgents, c)
  {
  }

  // ---------------------------------------------------------------- a pass that nothing disturbs

  predicate IsCall(e: Event) {
    || e.ReadWorkflow? || e.DeleteAgent? || e.RemoveFinalizer? || e.AddFinalizer? || e.ReadAgent? || e.CreateAgent?
    || e.UpdateAgent? || e.ListAgents? || e.PruneAgent? || e.Finish?
  }

  /** From `i` to `j` the reconciler makes one pass, from idle to idle, with no crash and nobody else about. */
  ghost predicate IsPass(ss: seq<Cluster>, es: seq<Event>, c: Config, i: nat, j: nat) {
    && IsRun(ss, es, c) && i < j < |ss| && ss[i].control.Idle? && ss[j].control.Idle? && es[i].ReadWorkflow?
    && (forall t :: i < t < j ==> !ss[t].control.Idle?) && (forall t :: i <= t < j ==> IsCall(es[t]))
  }

  /** Every Agent that the pass writes is given this spec. */
  ghost predicate Writes(es: seq<Event>, i: nat, j: nat, spec: string) {
    forall t :: i <= t < j && t < |es| ==> (es[t].CreateAgent? || es[t].UpdateAgent? ==> es[t].spec == spec)
  }

  ghost function Guard(wf: Workflow): Workflow {
    if wf.finalizer then wf else wf.(finalizer := true, version := wf.version + 1)
  }

  /** The Agent under the computed name is the Workflow's, with the spec written, and of the others exactly
      those without its three labels are left, unchanged. */
  ghost predicate Published(before: map<string, Agent>, after: map<string, Agent>, c: Config, uid: string,
                            spec: string) {
    && c.agentName in after && after[c.agentName].labels == Labels(c.ns, c.name, uid)
    && after[c.agentName].spec == spec
    && forall n :: n != c.agentName ==>
         && (n in after <==> n in before && before[n].labels != Labels(c.ns, c.name, uid))
         && (n in after ==> after[n] == before[n])
  }

  ghost predicate Refused(before: map<string, Agent>, after: map<string, Agent>, c: Config, uid: string) {
    c.agentName in before && before[c.agentName].labels != Labels(c.ns, c.name, uid) && after == before
  }

  /** A pass over a Workflow to be exposed sets the finalizer and publishes the Agent, or finds somebody
      else's Agent under the computed name and changes none. */
  lemma PassPublishes(ss: seq<Cluster>, es: seq<Event>, c: Config, i: nat, j: nat, spec: string)
    requires IsPass(ss, es, c, i, j) && es[i] == ReadWorkflow(true) && Writes(es, i, j, spec)
    requires ss[i].wf.Some? && ss[i].wf.value.exposable && !ss[i].wf.value.deleting
    ensures ss[j].wf == Some(Guard(ss[i].wf.value))
    ensures var uid := ss[i].wf.value.uid;
            if c.agentName in ss[i].agents && ss[i].agents[c.agentName].labels != Labels(c.ns, c.name, uid)
            then ss[j].agents == ss[i].agents
            else Published(ss[i].agents, ss[j].agents, c, uid, spec)
  {
    assert Enabled(ss[i], es[i], c) && ss[i + 1] == Apply(ss[i], es[i], c);
    assert Underway(ss[i], ss[i + 1], c, spec);
    PassGoesOn(ss, es, c, i, i + 1, j, spec);
  }

  /** What a pass has done so far, stage by stage. */
  ghost predicate Underway(s0: Cluster, s: Cluster, c: Config, spec: string)
    requires s0.wf.Some?
  {
    var wf0, uid := s0.wf.value, s0.wf.value.uid;
    match s.control
    case Deleting(_) => false
    case Releasing(_) => false
    case Guarding(wf) => wf == wf0 && !wf.finalizer && s.wf == s0.wf && s.agents == s0.agents
    case Idle => s.wf == Some(Guard(wf0))
                 && (Refused(s0.agents, s.agents, c, uid)
                     || (Owned(s0, c) && Published(s0.agents, s.agents, c, uid, spec)))
    case Upserting(wf) => wf == Guard(wf0) && s.wf == Some(wf) && s.agents == s0.agents
    case Creating(wf) => wf == Guard(wf0) && s.wf == Some(wf) && s.agents == s0.agents && c.agentName !in s0.agents
    case Updating(wf, read) =>
      && wf == Guard(wf0) && s.wf == Some(wf) && s.agents == s0.agents && c.agentName in s0.agents
      && read == s0.agents[c.agentName] && read.labels == Labels(c.ns, c.name, uid)
    case Listing(wf) =>
      wf == Guard(wf0) && s.wf == Some(wf) && Owned(s0, c)
          && Remaining(s0.agents, s.agents, c, uid, spec, s0.agents.Keys)
    case Pruning(wf, stale) =>
      && wf == Guard(wf0) && s.wf == Some(wf) && Owned(s0, c)
      && Remaining(s0.agents, s.agents, c, uid, spec, stale.Keys) && c.agentName !in stale
      && forall n :: n in stale ==> n in s0.agents && s0.agents[n].labels == Labels(c.ns, c.name, uid)
  }

  ghost predicate Owned(s0: Cluster, c: Config)
    requires s0.wf.Some?
  {
    c.agentName in s0.agents ==> s0.agents[c.agentName].labels == Labels(c.ns, c.name, s0.wf.value.uid)
  }

  /** Published, but for the Agents in `stale`, which are still there. */
  ghost predicate Remaining(before: map<string, Agent>, after: map<string, Agent>, c: Config, uid: string, spec: string,
                            stale: set<string>) {
    && c.agentName in after && after[c.agentName].labels == Labels(c.ns, c.name, uid)
    && after[c.agentName].spec == spec
    && forall n :: n != c.agentName ==>
         && (n in after <==> n in before && (before[n].labels != Labels(c.ns, c.name, uid) || n in stale))
         && (n in after ==> after[n] == before[n])
  }

  lemma {:induction false} PassGoesOn(ss: seq<Cluster>, es: seq<Event>, c: Config, i: nat, t: nat, j: nat, spec: string)
    requires IsPass(ss, es, c, i, j) && Writes(es, i, j, spec) && i < t <= j
    requires ss[i].wf.Some? && Underway(ss[i], ss[t], c, spec)
    ensures Underway(ss[i], ss[j], c, spec)
    decreases j - t
  {
    if t < j {
      hide IsRun, Underway;
      CallGoesOn(ss[i], ss[t], es[t], c, spec) by { assert IsRun(ss, es, c); }
      PassGoesOn(ss, es, c, i, t + 1, j, spec);
    }
  }

  lemma CallGoesOn(s0: Cluster, s: Cluster, e: Event, c: Config, spec: string)
    requires Enabled(s, e, c) && IsCall(e) && !s.control.Idle? && s0.wf.Some? && Underway(s0, s, c, spec)
    requires e.CreateAgent? || e.UpdateAgent? ==> e.spec == spec
    ensures Underway(s0, Apply(s, e, c), c, spec)
  {
  }

  /** A pass over a Workflow that is not to be exposed any more removes its Agent and then the finalizer;
      without a finalizer there is nothing to do. */
  lemma PassTearsDown(ss: seq<Cluster>, es: seq<Event>, c: Config, i: nat, j: nat)
    requires IsPass(ss, es, c, i, j) && ss[i].wf.Some?
    requires var wf := ss[i].wf.value; wf.deleting || !wf.exposable || es[i] == ReadWorkflow(false)
    ensures var wf := ss[i].wf.value;
            if wf.finalizer then
              && ss[j].wf == Some(wf.(finalizer := false, version := wf.version + 1))
              && ss[j].agents == ss[i].agents - {c.agentName}
            else ss[j].wf == ss[i].wf && ss[j].agents == ss[i].agents
  {
    assert Enabled(ss[i], es[i], c) && ss[i + 1] == Apply(ss[i], es[i], c);
    if ss[i].wf.value.finalizer {
      assert Enabled(ss[i + 1], es[i + 1], c) && ss[i + 2] == Apply(ss[i + 1], es[i + 1], c);
      assert Enabled(ss[i + 2], es[i + 2], c) && ss[i + 3] == Apply(ss[i + 2], es[i + 2], c);
    }
  }

  // ---------------------------------------------------------------- other people's Agents

  ghost predicate Upserts(e: Event) { e.CreateAgent? || e.UpdateAgent? || e.PruneAgent? }

  ghost predicate OthersUntouched(s: Cluster, s': Cluster, c: Config, wf: Workflow) {
    forall name :: name in s.agents && !ManagedBy(s.agents[name], c, wf) ==>
      name in s'.agents && s'.agents[name] == s.agents[name]
  }

  /** Outside events that put, change or remove the Agent `name`. */
  predicate Touches(e: Event, name: string) {
    (e.AgentEdited? && e.name == name) || (e.AgentRemoved? && e.name == name) || e.CRDRemoved?
  }

  /** Step `i` prunes `name` in the pass that listed the Agents at `l`, and the last thing that happened to
      `name` in between is that somebody gave it labels other than this Workflow's. */
  ghost predicate ReplacedInPass(ss: seq<Cluster>, es: seq<Event>, c: Config, i: nat, l: nat, k: nat)
    requires |ss| == |es| + 1 && i < |es| && es[i].PruneAgent? && ss[i].control.Pruning?
  {
    && l < k < i && es[l] == ListAgents && (forall t :: l < t <= i ==> ss[t].control.Pruning?)
    && es[k].AgentEdited? && es[k].name == es[i].name && !ManagedBy(es[k].agent, c, ss[i].control.wf)
    && forall t :: k < t < i ==> !Touches(es[t], es[i].name)
  }

  /** What a prune still has on its list was found when the pass listed the Agents. */
  lemma {:induction false} ListedInPass(ss: seq<Cluster>, es: seq<Event>, c: Config, i: nat, name: string)
    returns (l: nat)
    requires IsRun(ss, es, c) && i < |ss| && ss[i].control.Pruning? && name in ss[i].control.stale
    ensures l < i && es[l] == ListAgents && ss[l].control.Listing?
    ensures forall t :: l < t <= i ==> && ss[t].control.Pruning? && ss[t].control.wf == ss[i].control.wf
                                       && name in ss[t].control.stale
    ensures name in ss[l + 1].agents && ManagedBy(ss[l + 1].agents[name], c, ss[i].control.wf)
    decreases i
  {
    assert Enabled(ss[i - 1], es[i - 1], c) && ss[i] == Apply(ss[i - 1], es[i - 1], c);
    if es[i - 1] == ListAgents {
      l := i - 1;
    } else {
      l := ListedInPass(ss, es, c, i - 1, name);
    }
  }

  /** During a prune an Agent still to be pruned changes through outside events only. */
  lemma {:induction false} UntouchedInPass(ss: seq<Cluster>, es: seq<Event>, c: Config, j: nat, i: nat, name: string)
    requires IsRun(ss, es, c) && j <= i < |ss|
    requires forall t :: j <= t <= i ==> ss[t].control.Pruning? && name in ss[t].control.stale
    requires forall t :: j <= t < i ==> !Touches(es[t], name)
    ensures name in ss[i].agents <==> name in ss[j].agents
    ensures name in ss[j].agents ==> ss[i].agents[name] == ss[j].agents[name]
    decreases i
  {
    if j < i {
      UntouchedInPass(ss, es, c, j, i - 1, name);
      assert Enabled(ss[i - 1], es[i - 1], c) && ss[i] == Apply(ss[i - 1], es[i - 1], c);
    }
  }

  lemma {:induction false} LastTouch(es: seq<Event>, l: nat, i: nat, name: string) returns (k: nat)
    requires l < i <= |es|
    ensures l <= k < i && (k > l ==> Touches(es[k], name)) && forall t :: k < t < i ==> !Touches(es[t], name)
    decreases i
  {
    if i - 1 == l || Touches(es[i - 1], name) {
      k := i - 1;
    } else {
      k := LastTouch(es, l, i - 1, name);
    }
  }

  /** Creating, updating and pruning leave alone every Agent without this Workflow's three labels, exactly
      unless somebody replaced a listed Agent by such a one while the prune was under way. */
  lemma OnlyManagedAgentsChange(ss: seq<Cluster>, es: seq<Event>, c: Config, i: nat)
    requires IsRun(ss, es, c) && i < |es| && Upserts(es[i])
    ensures OthersUntouched(ss[i], ss[i + 1], c, ss[i].control.wf)
       <==> !(es[i].PruneAgent? && exists l, k :: ReplacedInPass(ss, es, c, i, l, k))
  {
    CreatedAgentIsGuarded(ss, es, c, i);
    assert Enabled(ss[i], es[i], c) && ss[i + 1] == Apply(ss[i], es[i], c);
    if es[i].PruneAgent? {
      hide IsRun, Apply, Inv, ReplacedInPass;
      PruneTakesReplaced(ss, es, c, i);
      PruneTouchesOne(ss[i], ss[i + 1], c, es[i].name);
    }
  }

  lemma PruneTouchesOne(s: Cluster, s': Cluster, c: Config, name: string)
    requires s.control.Pruning? && s'.agents == Without(s.agents, name)
    ensures OthersUntouched(s, s', c, s.control.wf)
            <==> !(name in s.agents && !ManagedBy(s.agents[name], c, s.control.wf))
  {
  }

  lemma PruneTakesReplaced(ss: seq<Cluster>, es: seq<Event>, c: Config, i: nat)
    requires IsRun(ss, es, c) && i < |es| && es[i].PruneAgent?
    ensures ss[i].control.Pruning? && ss[i + 1].agents == Without(ss[i].agents, es[i].name)
    ensures (es[i].name in ss[i].agents && !ManagedBy(ss[i].agents[es[i].name], c, ss[i].control.wf))
       <==> exists l, k :: ReplacedInPass(ss, es, c, i, l, k)
  {
    assert Enabled(ss[i], es[i], c) && ss[i + 1] == Apply(ss[i], es[i], c);
    var name := es[i].name;
    var l := ListedInPass(ss, es, c, i, name);
    var k := LastTouch(es, l, i, name);
    AfterTouch(ss, es, c, k, name);
    UntouchedInPass(ss, es, c, k + 1, i, name);
    if name in ss[i].agents && !ManagedBy(ss[i].agents[name], c, ss[i].control.wf) {
      assert ReplacedInPass(ss, es, c, i, l, k);
    }
    if l', k' :| ReplacedInPass(ss, es, c, i, l', k') {
      SameListing(ss, es, c, i, l, l');
      assert k' == k;
    }
  }

  lemma AfterTouch(ss: seq<Cluster>, es: seq<Event>, c: Config, k: nat, name: string)
    requires IsRun(ss, es, c) && k < |es|
    ensures Touches(es[k], name) ==>
              if es[k].AgentEdited? then name in ss[k + 1].agents && ss[k + 1].agents[name] == es[k].agent
              else name !in ss[k + 1].agents
  {
    assert Enabled(ss[k], es[k], c) && ss[k + 1] == Apply(ss[k], es[k], c);
  }

  lemma SameListing(ss: seq<Cluster>, es: seq<Event>, c: Config, i: nat, l: nat, l': nat)
    requires IsRun(ss, es, c) && l < i < |ss| && l' < i && es[l] == ListAgents && es[l'] == ListAgents
    requires forall t :: l < t <= i ==> ss[t].control.Pruning?
    requires forall t :: l' < t <= i ==> ss[t].control.Pruning?
    ensures l == l'
  {
    assert Enabled(ss[l], es[l], c) && Enabled(ss[l'], es[l'], c);
  }

  /** It does happen: the delete carries no precondition, so an Agent put in the place of a stale one after
      the listing is deleted although it has other labels. */
  lemma PruneMayDeleteAReplacement(c: Config) returns (ss: seq<Cluster>, es: seq<Event>)
    requires c.agentName != STALE
    ensures IsRun(ss, es, c) && |es| > 0 && es[|es| - 1] == PruneAgent(STALE)
    ensures var s := ss[|es| - 1];
            s.control.Pruning? && STALE in s.agents && !ManagedBy(s.agents[STALE], c, s.control.wf)
    ensures STALE !in ss[|es|].agents
  {
    hide Apply, Enabled;
    ss, es := PruneIsUnderWay(c);
    var s := ss[|es|];
    var other := Agent(Labels(c.ns, c.name, "v"), "", 0, false);
    Removed(s, c, STALE);
    ss, es := Extend(ss, es, AgentRemoved(STALE), c);
    Replaced(ss[|es|], c, STALE, other);
    ss, es := Extend(ss, es, AgentEdited(STALE, other), c);
    Pruned(ss[|es|], c, STALE);
    ss, es := Extend(ss, es, PruneAgent(STALE), c);
  }

  const STALE := "flo-0123456789ab"

  lemma Extend(ss: seq<Cluster>, es: seq<Event>, e: Event, c: Config) returns (ss': seq<Cluster>, es': seq<Event>)
    requires IsRun(ss, es, c) && Enabled(ss[|es|], e, c)
    ensures IsRun(ss', es', c) && es' == es + [e] && ss' == ss + [Apply(ss[|es|], e, c)]
  {
    hide Apply, Enabled;
    ss', es' := ss + [Apply(ss[|es|], e, c)], es + [e];
  }

  lemma Removed(s: Cluster, c: Config, name: string)
    requires name in s.agents
    ensures Enabled(s, AgentRemoved(name), c)
    ensures var s' := Apply(s, AgentRemoved(name), c); name !in s'.agents && s'.control == s.control && s'.crd == s.crd
  {
  }

  lemma Replaced(s: Cluster, c: Config, name: string, agent: Agent)
    requires name !in s.agents && s.crd && !agent.ours
    ensures Enabled(s, AgentEdited(name, agent), c)
    ensures var s' := Apply(s, AgentEdited(name, agent), c);
            s'.agents == s.agents[name := agent] && s'.control == s.control
  {
  }

  lemma Pruned(s: Cluster, c: Config, name: string)
    requires s.control.Pruning? && name in s.control.stale
    ensures Enabled(s, PruneAgent(name), c) && name !in Apply(s, PruneAgent(name), c).agents
  {
  }

  /** A first reconcile that finds an Agent of the Workflow under an old name. */
  lemma PruneIsUnderWay(c: Config) returns (ss: seq<Cluster>, es: seq<Event>)
    requires c.agentName != STALE
    ensures IsRun(ss, es, c)
    ensures var s := ss[|es|];
            s.crd && STALE in s.agents && s.control.Pruning? && STALE in s.control.stale && s.control.wf.uid == "u"
  {
    ss, es := [EMPTY], [];
    ss, es := Extend(ss, es, UserCreates("u", true), c);
    ss, es := Extend(ss, es, AgentEdited(STALE, Agent(Labels(c.ns, c.name, "u"), "", 0, false)), c);
    ss, es := Extend(ss, es, ReadWorkflow(true), c);
    ss, es := Extend(ss, es, AddFinalizer, c);
    ss, es := Extend(ss, es, ReadAgent, c);
    ss, es := Extend(ss, es, CreateAgent(""), c);
    ss, es := Extend(ss, es, ListAgents, c);
  }
}
