/** MainView and ScreenGroup: switching the active screen group. */
module GroupSwitching {
  import opened Common

  // First renders may be deferred to a work queue and may fail and roll back. Whether a render succeeds
  // is an input.

  datatype Group = Group(rendered: bool, requested: bool, activated: bool, hidden: bool)

  /** A deferred first render with the group to fall back to. */
  datatype Job = Job(group: Uint32, previous: Option<Uint32>)

  datatype View = View(
    groups: map<Uint32, Group>,
    active: Option<Uint32>,
    ready: bool,
    deferred: bool,
    jobs: seq<Job>)

  const NewGroup := Group(false, false, false, true)

  // ---------------------------------------------------------------- one group

  function Applied(g: Group): Group {
    if g.activated || !g.requested || !g.rendered then g else g.(activated := true, hidden := false)
  }

  function Activated(g: Group): Group {
    Applied(g.(requested := true))
  }

  function Deactivated(g: Group): Group {
    if g.activated then g.(requested := false, activated := false, hidden := true) else g.(requested := false)
  }

  function Rendered(g: Group, renders: bool): Group {
    if g.rendered || !renders then g else Applied(g.(rendered := true))
  }

  // ---------------------------------------------------------------- the view

  predicate Known(v: View, id: Option<Uint32>) {
    id.Some? ==> id.value in v.groups
  }

  /** The active group and every queued job name configured groups. */
  predicate WellFormed(v: View) {
    && Known(v, v.active)
    && (forall j :: j in v.jobs ==> j.group in v.groups && Known(v, j.previous))
  }

  function Put(v: View, id: Uint32, g: Group): View {
    v.(groups := v.groups[id := g])
  }

  function RenderOrRollBack(v: View, job: Job, renders: bool): (View, Status)
    requires job.group in v.groups && Known(v, job.previous)
  {
    var g := Rendered(v.groups[job.group], renders);
    var v1 := Put(v, job.group, g);
    if g.rendered then (v1, Success)
    else if v.active != Some(job.group) then (v1, IoError)
    else
      var v2 := Put(v1, job.group, Deactivated(g)).(active := job.previous);
      match job.previous
      case None => (v2, IoError)
      case Some(p) => (Put(v2, p, Activated(v2.groups[p])), IoError)
  }

  /** The previous group is hidden and the new one asked to show itself once it is rendered. */
  function Selected(v: View, id: Uint32): View
    requires WellFormed(v) && id in v.groups
  {
    var v1 := match v.active case None => v case Some(a) => Put(v, a, Deactivated(v.groups[a]));
    Put(v1, id, Activated(v1.groups[id])).(active := Some(id))
  }

  function SwitchTo(v: View, id: Uint32, renders: bool): (View, Status)
    requires WellFormed(v)
  {
    if id !in v.groups then (v, NoEntry)
    else if !v.ready then (v.(active := Some(id)), Success)
    else if v.active == Some(id) then (v, Success)
    else
      var v2 := Selected(v, id);
      if v2.groups[id].rendered then (v2, Success)
      else if v.deferred then (v2.(jobs := v2.jobs + [Job(id, v.active)]), Success)
      else RenderOrRollBack(v2, Job(id, v.active), renders)
  }

  function RunJob(v: View, renders: bool): View
    requires WellFormed(v)
  {
    if v.jobs == [] then v
    else RenderOrRollBack(v.(jobs := v.jobs[1..]), v.jobs[0], renders).0
  }

  function RenderView(v: View, renders: bool): (View, Status)
    requires WellFormed(v)
  {
    match v.active
    case None => (v, NoEntry)
    case Some(a) =>
      var g := Rendered(v.groups[a], renders);
      if g.rendered then (Put(v, a, Activated(g)).(ready := true), Success) else (Put(v, a, g), IoError)
  }

  /**
   How a switch is answered: an unknown group is refused and nothing changes; a view that was not rendered
   yet only notes the group; a deferred render waits in the queue with the group to fall back to; and all
   groups but the old and the new one stay as they are.
   */
  lemma SwitchAnswers(v: View, id: Uint32, renders: bool)
    requires WellFormed(v)
    ensures
      var (after, status) := SwitchTo(v, id, renders);
      && (status == NoEntry <==> id !in v.groups) && (status == NoEntry ==> after == v)
      && (status == Success <==>
            id in v.groups && (!v.ready || v.active == Some(id) || v.groups[id].rendered || v.deferred || renders))
      && (status == Success ==> after.active == Some(id))
      && (id in v.groups && (!v.ready || v.active == Some(id)) ==> after == v.(active := Some(id)))
      && after.jobs == v.jobs + (if id in v.groups && v.ready && v.deferred && v.active != Some(id)
                                    && !v.groups[id].rendered then [Job(id, v.active)] else [])
      && after.ready == v.ready && after.groups.Keys == v.groups.Keys
      && forall other :: other in v.groups && other != id && Some(other) != v.active ==>
           after.groups[other] == v.groups[other]
  {
  }

  /** The first render of the view needs an active group that is or gets rendered; then the view is ready. */
  lemma RenderAnswers(v: View, renders: bool)
    requires WellFormed(v)
    ensures
      var (after, status) := RenderView(v, renders);
      && (status == NoEntry <==> v.active.None?)
      && (status == Success <==> v.active.Some? && (v.groups[v.active.value].rendered || renders))
      && (status == Success ==> after.ready && after.groups[v.active.value].rendered
                                && after.groups[v.active.value].requested && after.groups[v.active.value].activated)
      && (status != Success ==> after == v)
      && after.active == v.active && after.jobs == v.jobs
  {
  }

  // ---------------------------------------------------------------- runs

  datatype Step = Switch(id: Uint32, renders: bool) | Job1(renders: bool) | RenderAll(renders: bool)

  function Next(v: View, step: Step): View
    requires WellFormed(v)
  {
    match step
    case Switch(id, renders) => SwitchTo(v, id, renders).0
    case Job1(renders) => RunJob(v, renders)
    case RenderAll(renders) => RenderView(v, renders).0
  }

  /**
   Exactly the active group of a rendered view is asked to show itself, and a group is on screen
   exactly when it is both asked to and rendered.
   */
  predicate Coherent(v: View) {
    && WellFormed(v)
    && (v.ready ==> v.active.Some?)
    && (!v.ready ==> v.jobs == [])
    && (forall j :: j in v.jobs ==> j.previous.Some? && j.previous != Some(j.group))
    && (forall id :: id in v.groups ==> Consistent(v.groups[id], v.ready && v.active == Some(id)))
  }

  predicate Consistent(g: Group, selected: bool) {
    && (g.requested <==> selected)
    && (g.activated <==> g.requested && g.rendered)
    && (g.hidden <==> !g.activated)
  }

  lemma StepKeepsCoherent(v: View, step: Step)
    requires Coherent(v)
    ensures Coherent(Next(v, step)) && Next(v, step).groups.Keys == v.groups.Keys
    ensures v.ready ==> Next(v, step).ready
    ensures Next(v, step).deferred == v.deferred
  {
    match step
    case Switch(id, renders) =>
      if id in v.groups && v.ready && v.active != Some(id) {
        SelectKeepsCoherent(v, id);
        var v2 := Selected(v, id);
        if !v2.groups[id].rendered && !v.deferred {
          RollBackKeepsCoherent(v2, Job(id, v.active), renders);
        }
      }
    case Job1(renders) =>
      if v.jobs != [] {
        RollBackKeepsCoherent(v.(jobs := v.jobs[1..]), v.jobs[0], renders);
      }
    case RenderAll(renders) => RenderViewKeepsCoherent(v, renders);
  }

  lemma RenderViewKeepsCoherent(v: View, renders: bool)
    requires Coherent(v)
    ensures
      var v' := RenderView(v, renders).0;
      && Coherent(v') && v'.groups.Keys == v.groups.Keys && (v.ready ==> v'.ready)
  {
  }

  lemma SelectKeepsCoherent(v: View, id: Uint32)
    requires Coherent(v) && v.ready && id in v.groups && v.active != Some(id)
    ensures Coherent(Selected(v, id)) && Selected(v, id).groups.Keys == v.groups.Keys
  {
  }

  lemma RollBackKeepsCoherent(v: View, job: Job, renders: bool)
    requires Coherent(v) && v.ready
    requires job.group in v.groups && job.previous.Some? && job.previous.value in v.groups
    requires job.previous.value != job.group
    ensures
      var v' := RenderOrRollBack(v, job, renders).0;
      Coherent(v') && v'.ready && v'.groups.Keys == v.groups.Keys && v'.deferred == v.deferred
  {
  }

  function Run(v: View, steps: seq<Step>): (r: View)
    requires Coherent(v)
    ensures Coherent(r) && r.groups.Keys == v.groups.Keys && r.deferred == v.deferred
    ensures v.ready ==> r.ready
    decreases |steps|
  {
    if steps == [] then v
    else
      StepKeepsCoherent(v, steps[0]);
      Run(Next(v, steps[0]), steps[1..])
  }

  /** At most one group is ever visible, and only the active one can be. */
  lemma AtMostOneVisible(v: View, steps: seq<Step>, a: Uint32, b: Uint32)
    requires Coherent(v)
    requires a in Run(v, steps).groups && b in Run(v, steps).groups
    requires !Run(v, steps).groups[a].hidden && !Run(v, steps).groups[b].hidden
    ensures a == b && Run(v, steps).active == Some(a)
  {
  }

  // ---------------------------------------------------------------- what a settled view shows

  predicate Shown(v: View) {
    v.active.Some? && v.active.value in v.groups
    && v.groups[v.active.value].rendered && v.groups[v.active.value].activated
  }

  /** The group whose render the step attempts, if any. */
  function Attempts(v: View, step: Step): Option<Uint32> {
    match step
    case Switch(id, _) => if v.deferred then None else Some(id)
    case Job1(_) => if v.jobs == [] then None else Some(v.jobs[0].group)
    case RenderAll(_) => v.active
  }

  /** Only a group in `failing` may fail to render. */
  predicate Allowed(v: View, step: Step, failing: set<Uint32>) {
    step.renders || Attempts(v, step).None? || Attempts(v, step).value in failing
  }

  predicate Legal(v: View, steps: seq<Step>, failing: set<Uint32>)
    requires Coherent(v)
    decreases |steps|
  {
    steps == [] ||
    (Allowed(v, steps[0], failing) &&
     (StepKeepsCoherent(v, steps[0]);
      Legal(Next(v, steps[0]), steps[1..], failing)))
  }

  /** A view that has come up: rendered, nothing queued, its active group on screen. */
  predicate Started(v: View) {
    Coherent(v) && v.ready && v.jobs == [] && Shown(v)
  }

  /** Groups that are still to be rendered for the first time and may fail at it. */
  predicate AtRisk(v: View, id: Uint32, failing: set<Uint32>) {
    id in v.groups && id in failing && !v.groups[id].rendered
  }

  predicate AtMostOneAtRisk(v: View, failing: set<Uint32>) {
    forall f, g :: f in v.groups && g in v.groups && AtRisk(v, f, failing) && AtRisk(v, g, failing) ==> f == g
  }

  /** Every run that ends with no render queued ends with the active group on screen. */
  ghost predicate AlwaysShownAtRest(v: View, failing: set<Uint32>)
    requires Coherent(v)
  {
    forall steps :: Legal(v, steps, failing) && Run(v, steps).jobs == [] ==> Shown(Run(v, steps))
  }

  predicate QueuedBefore(v: View, id: Uint32, i: nat) {
    exists j :: 0 <= j < i && j < |v.jobs| && v.jobs[j].group == id
  }

  /**
   What the FIFO order of render jobs guarantees: by the time a job that may roll back runs, the
   group it would roll back to has been rendered; and an unrendered active group is still queued.
   */
  predicate Recoverable(v: View, failing: set<Uint32>) {
    && Coherent(v) && v.ready && AtMostOneAtRisk(v, failing)
    && (forall i :: 0 <= i < |v.jobs| ==> FallbackReady(v, i, failing))
    && (v.groups[v.active.value].rendered || QueuedBefore(v, v.active.value, |v.jobs|))
  }

  predicate FallbackReady(v: View, i: nat, failing: set<Uint32>)
    requires Coherent(v) && i < |v.jobs|
  {
    AtRisk(v, v.jobs[i].group, failing) ==>
      var p := v.jobs[i].previous.value;
      v.groups[p].rendered || QueuedBefore(v, p, i)
  }

  /** Rendering more groups and touching nothing queued keeps every fallback ready. */
  lemma SameQueue(v: View, v': View, failing: set<Uint32>)
    requires Recoverable(v, failing) && Coherent(v') && v'.jobs == v.jobs && v'.groups.Keys == v.groups.Keys
    requires forall g :: g in v.groups && v.groups[g].rendered ==> v'.groups[g].rendered
    ensures AtMostOneAtRisk(v', failing)
    ensures forall i :: 0 <= i < |v'.jobs| ==> FallbackReady(v', i, failing)
  {
    assert forall f :: f in v.groups && AtRisk(v', f, failing) ==> AtRisk(v, f, failing);
    forall i | 0 <= i < |v'.jobs| ensures FallbackReady(v', i, failing) {
      assert FallbackReady(v, i, failing);
      var p := v.jobs[i].previous.value;
      if QueuedBefore(v, p, i) {
        Requeued(v, v', p, i);
      }
    }
  }

  lemma QueuedAfterPush(v: View, job: Job, id: Uint32, i: nat)
    requires QueuedBefore(v, id, i)
    ensures QueuedBefore(v.(jobs := v.jobs + [job]), id, i)
  {
    var j :| 0 <= j < i && j < |v.jobs| && v.jobs[j].group == id;
    assert v.(jobs := v.jobs + [job]).jobs[j].group == id;
  }

  lemma QueuedAfterPop(v: View, v': View, id: Uint32, i: nat)
    requires v.jobs != [] && v'.jobs == v.jobs[1..] && i > 0
    requires QueuedBefore(v, id, i) && v.jobs[0].group != id
    ensures QueuedBefore(v', id, i - 1)
  {
    var j :| 0 <= j < i && j < |v.jobs| && v.jobs[j].group == id;
    assert v'.jobs[j - 1] == v.jobs[j];
  }

  lemma SwitchKeepsRecoverable(v: View, id: Uint32, renders: bool, failing: set<Uint32>)
    requires Recoverable(v, failing) && v.deferred
    ensures Recoverable(SwitchTo(v, id, renders).0, failing)
  {
    StepKeepsCoherent(v, Switch(id, renders));
    if id in v.groups && v.active != Some(id) {
      var v2 := Selected(v, id);
      SelectKeepsCoherent(v, id);
      SameQueue(v, v2, failing);
      if !v2.groups[id].rendered {
        PushKeepsRecoverable(v, v2, id, failing);
      }
    }
  }

  lemma Requeued(v: View, v': View, id: Uint32, i: nat)
    requires QueuedBefore(v, id, i) && v'.jobs == v.jobs
    ensures QueuedBefore(v', id, i)
  {
    var j :| 0 <= j < i && j < |v.jobs| && v.jobs[j].group == id;
    assert v'.jobs[j].group == id;
  }

  lemma PushKeepsRecoverable(v: View, v2: View, id: Uint32, failing: set<Uint32>)
    requires Recoverable(v, failing) && id in v.groups && v.active != Some(id)
    requires v2 == Selected(v, id)
    requires Coherent(v2) && AtMostOneAtRisk(v2, failing)
    requires forall i :: 0 <= i < |v2.jobs| ==> FallbackReady(v2, i, failing)
    requires Coherent(v2.(jobs := v2.jobs + [Job(id, v.active)]))
    ensures Recoverable(v2.(jobs := v2.jobs + [Job(id, v.active)]), failing)
  {
    var job := Job(id, v.active);
    var v3 := v2.(jobs := v2.jobs + [job]);
    var n := |v2.jobs|;
    assert forall f :: f in v.groups ==> AtRisk(v3, f, failing) == AtRisk(v2, f, failing);
    forall i | 0 <= i < |v3.jobs| ensures FallbackReady(v3, i, failing) {
      var p := v3.jobs[i].previous.value;
      if i < n {
        assert FallbackReady(v2, i, failing) && v3.jobs[i] == v2.jobs[i];
        if QueuedBefore(v2, p, i) {
          QueuedAfterPush(v2, job, p, i);
        }
      } else if !v3.groups[p].rendered {
        Requeued(v, v2, p, n);
        QueuedAfterPush(v2, job, p, n);
      }
    }
    assert v3.jobs[n].group == id;
    assert QueuedBefore(v3, id, n + 1);
  }

  lemma JobKeepsRecoverable(v: View, renders: bool, failing: set<Uint32>)
    requires Recoverable(v, failing) && v.jobs != []
    requires Allowed(v, Job1(renders), failing)
    ensures Recoverable(RunJob(v, renders), failing)
  {
    StepKeepsCoherent(v, Job1(renders));
    JobRendersItsGroup(v, renders);
    var v' := RunJob(v, renders);
    assert forall f :: f in v.groups && AtRisk(v', f, failing) ==> AtRisk(v, f, failing);
    forall i | 0 <= i < |v'.jobs| ensures FallbackReady(v', i, failing) {
      JobKeepsFallback(v, renders, failing, i);
    }
    JobKeepsActive(v, renders, failing);
  }

  lemma JobRendersItsGroup(v: View, renders: bool)
    requires Coherent(v) && v.jobs != []
    ensures
      var v' := RunJob(v, renders);
      && v'.jobs == v.jobs[1..]
      && forall g :: g in v.groups ==>
           g in v'.groups && (v'.groups[g].rendered <==> v.groups[g].rendered || (g == v.jobs[0].group && renders))
  {
  }

  lemma JobKeepsFallback(v: View, renders: bool, failing: set<Uint32>, i: nat)
    requires Recoverable(v, failing) && v.jobs != [] && Allowed(v, Job1(renders), failing)
    requires Coherent(RunJob(v, renders)) && i < |RunJob(v, renders).jobs|
    ensures FallbackReady(RunJob(v, renders), i, failing)
  {
    JobRendersItsGroup(v, renders);
    var v' := RunJob(v, renders);
    var p := v'.jobs[i].previous.value;
    assert v'.jobs[i] == v.jobs[i + 1] && FallbackReady(v, i + 1, failing);
    if AtRisk(v', v'.jobs[i].group, failing) && !v'.groups[p].rendered {
      // Otherwise the head failed, and it and this job's own group are two groups at risk.
      assert v.jobs[i + 1] in v.jobs;
      assert v.jobs[0].group != p;
      QueuedAfterPop(v, v', p, i + 1);
    }
  }

  lemma JobKeepsActive(v: View, renders: bool, failing: set<Uint32>)
    requires Recoverable(v, failing) && v.jobs != [] && Allowed(v, Job1(renders), failing)
    requires Coherent(RunJob(v, renders)) && RunJob(v, renders).ready
    ensures
      var v' := RunJob(v, renders);
      v'.groups[v'.active.value].rendered || QueuedBefore(v', v'.active.value, |v'.jobs|)
  {
    JobRendersItsGroup(v, renders);
    assert FallbackReady(v, 0, failing);
    var v' := RunJob(v, renders);
    var a := v'.active.value;
    if !v'.groups[a].rendered {
      if v'.active == v.active {
        assert v.jobs[0] in v.jobs && v.jobs[0].group != a;
        QueuedAfterPop(v, v', a, |v.jobs|);
      } else {
        // A rollback: the queue held nothing before the head, so its fallback was rendered.
        assert false;
      }
    }
  }

  lemma {:induction false} RunKeepsRecoverable(v: View, steps: seq<Step>, failing: set<Uint32>)
    requires Recoverable(v, failing) && v.deferred && Legal(v, steps, failing)
    ensures Recoverable(Run(v, steps), failing)
    decreases |steps|
  {
    if steps != [] {
      StepKeepsCoherent(v, steps[0]);
      match steps[0] {
        case Switch(id, renders) => SwitchKeepsRecoverable(v, id, renders, failing);
        case Job1(renders) => if v.jobs != [] { JobKeepsRecoverable(v, renders, failing); }
        case RenderAll(renders) => RenderKeepsRecoverable(v, renders, failing);
      }
      RunKeepsRecoverable(Next(v, steps[0]), steps[1..], failing);
    }
  }

  lemma RenderKeepsRecoverable(v: View, renders: bool, failing: set<Uint32>)
    requires Recoverable(v, failing)
    ensures Recoverable(RenderView(v, renders).0, failing)
  {
    StepKeepsCoherent(v, RenderAll(renders));
    var v' := RenderView(v, renders).0;
    SameQueue(v, v', failing);
    if !v'.groups[v'.active.value].rendered {
      Requeued(v, v', v.active.value, |v.jobs|);
    }
  }

  lemma TwoSwitches(v: View, f: Uint32, g: Uint32)
    requires Started(v) && v.deferred && f != g && f in v.groups && g in v.groups
    requires !v.groups[f].rendered && !v.groups[g].rendered
    ensures
      var v1 := Next(v, Switch(f, false));
      var v2 := SwitchTo(v1, g, false).0;
      && Coherent(v2) && v2.ready && v2.deferred && v2.jobs == [Job(f, v.active), Job(g, Some(f))]
      && v2.groups.Keys == v.groups.Keys && v2.active == Some(g)
      && !v2.groups[f].rendered && !v2.groups[g].rendered
  {
    var v1 := Next(v, Switch(f, false));
    StepKeepsCoherent(v, Switch(f, false));
    assert Selected(v, f).jobs + [Job(f, v.active)] == [Job(f, v.active)];
    StepKeepsCoherent(v1, Switch(g, false));
  }

  lemma TwoFailedJobs(v: View, f: Uint32, g: Uint32)
    requires Coherent(v) && v.ready && f != g && f in v.groups && g in v.groups
    requires |v.jobs| == 2 && v.jobs[0].group == f && v.jobs[1] == Job(g, Some(f))
    requires v.active == Some(g) && !v.groups[f].rendered && !v.groups[g].rendered
    ensures
      var v1 := Next(v, Job1(false));
      && Coherent(v1) && v1.jobs == [Job(g, Some(f))]
      && var v2 := RunJob(v1, false);
      v2.jobs == [] && v2.active == Some(f) && !Shown(v2)
  {
    StepKeepsCoherent(v, Job1(false));
  }

  /** The shortest run that goes wrong: two groups that both fail, queued back to back. */
  lemma TwoFailuresStrandTheView(v: View, f: Uint32, g: Uint32, failing: set<Uint32>) returns (steps: seq<Step>)
    requires Started(v) && v.deferred && f != g
    requires AtRisk(v, f, failing) && AtRisk(v, g, failing)
    ensures steps == [Switch(f, false), Switch(g, false), Job1(false), Job1(false)]
    ensures Legal(v, steps, failing)
    ensures Run(v, steps).jobs == [] && Run(v, steps).active == Some(f) && !Shown(Run(v, steps))
  {
    TwoSwitches(v, f, g);
    var v1 := Next(v, Switch(f, false));
    var v2 := Next(v1, Switch(g, false));
    TwoFailedJobs(v2, f, g);
    var v3 := Next(v2, Job1(false));
    StepKeepsCoherent(v, Switch(f, false));
    StepKeepsCoherent(v3, Job1(false));
    FirstOf(v3, Job1(false), [], failing);
    FirstOf(v2, Job1(false), [Job1(false)] + [], failing);
    FirstOf(v1, Switch(g, false), [Job1(false)] + ([Job1(false)] + []), failing);
    FirstOf(v, Switch(f, false), [Switch(g, false)] + ([Job1(false)] + ([Job1(false)] + [])), failing);
    steps := [Switch(f, false)] + ([Switch(g, false)] + ([Job1(false)] + ([Job1(false)] + [])));
  }

  lemma FirstOf(v: View, step: Step, rest: seq<Step>, failing: set<Uint32>)
    requires Coherent(v) && Allowed(v, step, failing)
    requires Coherent(Next(v, step)) && Legal(Next(v, step), rest, failing)
    ensures Legal(v, [step] + rest, failing) && Run(v, [step] + rest) == Run(Next(v, step), rest)
  {
    assert ([step] + rest)[1..] == rest;
  }

  /**
   With deferred rendering, every settled run shows its active group if and only if at most one
   group is still at risk of failing its first render.
   */
  lemma SettledViewIsShownIff(v: View, failing: set<Uint32>)
    requires Started(v) && v.deferred
    ensures AlwaysShownAtRest(v, failing) <==> AtMostOneAtRisk(v, failing)
  {
    if AtMostOneAtRisk(v, failing) {
      OneAtRiskIsSafe(v, failing);
    } else {
      var f, g :| f in v.groups && g in v.groups && AtRisk(v, f, failing) && AtRisk(v, g, failing) && f != g;
      TwoAtRiskIsNotSafe(v, f, g, failing);
    }
  }

  lemma TwoAtRiskIsNotSafe(v: View, f: Uint32, g: Uint32, failing: set<Uint32>)
    requires Started(v) && v.deferred && f != g
    requires AtRisk(v, f, failing) && AtRisk(v, g, failing)
    ensures !AlwaysShownAtRest(v, failing)
  {
    var steps := TwoFailuresStrandTheView(v, f, g, failing);
  }

  lemma OneAtRiskIsSafe(v: View, failing: set<Uint32>)
    requires Started(v) && v.deferred && AtMostOneAtRisk(v, failing)
    ensures AlwaysShownAtRest(v, failing)
  {
    forall steps | Legal(v, steps, failing) && Run(v, steps).jobs == [] ensures Shown(Run(v, steps)) {
      RunKeepsRecoverable(v, steps, failing);
    }
  }

  /** Without a dispatcher every render is inline, and the view is shown whatever fails. */
  lemma {:induction false} InlineViewIsAlwaysShown(v: View, steps: seq<Step>)
    requires Started(v) && !v.deferred
    ensures Started(Run(v, steps))
    decreases |steps|
  {
    if steps != [] {
      InlineStepKeepsStarted(v, steps[0]);
      InlineViewIsAlwaysShown(Next(v, steps[0]), steps[1..]);
    }
  }

  lemma InlineStepKeepsStarted(v: View, step: Step)
    requires Started(v) && !v.deferred
    ensures Started(Next(v, step)) && !Next(v, step).deferred
  {
    StepKeepsCoherent(v, step);
  }

  // ---------------------------------------------------------------- the objects themselves

  datatype ScreenItem = ScreenItem(id: Uint32, zIndex: Int32)

  /** Lower screens first: LVGL draws the last one on top. */
  predicate ScreensInOrder(screens: seq<ScreenItem>) {
    forall i, j :: 0 <= i < j < |screens| ==> screens[i].zIndex <= screens[j].zIndex
  }

  /** `after` is `before` with the screen behind everything that is not above it. */
  ghost predicate InsertedOnTop(before: seq<ScreenItem>, screen: ScreenItem, after: seq<ScreenItem>) {
    exists k ::
      && 0 <= k <= |before| && after == before[..k] + [screen] + before[k..]
      && (forall i :: 0 <= i < k ==> before[i].zIndex <= screen.zIndex)
      && (forall i :: k <= i < |before| ==> screen.zIndex < before[i].zIndex)
  }

  class ScreenGroup {
    const screenGroupId: Uint32
    var screens: seq<ScreenItem>
    var isRendered: bool
    var isActivated: bool
    var isActivationRequested: bool
    var isHidden: bool

    ghost function State(): Group
      reads this
    {
      Group(isRendered, isActivationRequested, isActivated, isHidden)
    }

    constructor (id: Uint32)
      ensures screenGroupId == id && State() == NewGroup && screens == []
    {
      screenGroupId, screens := id, [];
      isRendered, isActivated, isActivationRequested, isHidden := false, false, false, true;
    }

    /** std::upper_bound, which asks for screens in order, and the insertion in front of what it finds. */
    method AddScreen(screen: ScreenItem)
      requires ScreensInOrder(screens)
      modifies `screens
      ensures ScreensInOrder(screens) && InsertedOnTop(old(screens), screen, screens)
    {
      var low, high := 0, |screens|;
      while low < high
        invariant 0 <= low <= high <= |screens|
        invariant forall i :: 0 <= i < low ==> screens[i].zIndex <= screen.zIndex
        invariant forall i :: high <= i < |screens| ==> screen.zIndex < screens[i].zIndex
      {
        var middle := (low + high) / 2;
        if screen.zIndex < screens[middle].zIndex {
          high := middle;
        } else {
          low := middle + 1;
        }
      }
      screens := screens[..low] + [screen] + screens[low..];
    }

    method EnsureRendered(renders: bool) returns (status: Status)
      modifies this
      ensures State() == Rendered(old(State()), renders)
      ensures status == Success <==> isRendered
      ensures status in {Success, IoError}
    {
      if isRendered {
        return Success;
      }
      if !renders {
        return IoError;
      }
      isRendered := true;
      ApplyActivation();
      status := Success;
    }

    method Activate()
      modifies this
      ensures State() == Activated(old(State()))
    {
      isActivationRequested := true;
      ApplyActivation();
    }

    method ApplyActivation()
      modifies this
      ensures State() == Applied(old(State()))
    {
      if isActivated || !isActivationRequested || !isRendered {
        return;
      }
      isHidden := false;
      isActivated := true;
    }

    method Deactivate()
      modifies this
      ensures State() == Deactivated(old(State()))
    {
      isActivationRequested := false;
      if !isActivated {
        return;
      }
      isHidden := true;
      isActivated := false;
    }
  }

  /** A closure handed to the render dispatcher, holding the groups it captured. */
  datatype RenderJob = RenderJob(group: ScreenGroup, previous: ScreenGroup?)

  class MainView {
    var screenGroups: map<Uint32, ScreenGroup>
    var activeScreenGroupId: Option<Uint32>
    var isReady: bool
    var hasDispatcher: bool
    var jobs: seq<RenderJob>

    predicate Owns(g: ScreenGroup)
      reads this
    {
      g.screenGroupId in screenGroups && screenGroups[g.screenGroupId] == g
    }

    ghost predicate Valid()
      reads this
    {
      && (forall id :: id in screenGroups ==> screenGroups[id].screenGroupId == id)
      && (activeScreenGroupId.Some? ==> activeScreenGroupId.value in screenGroups)
      && (forall j :: j in jobs ==> Owns(j.group) && (j.previous != null ==> Owns(j.previous)))
    }

    static ghost function JobState(j: RenderJob): Job {
      Job(j.group.screenGroupId, if j.previous == null then None else Some(j.previous.screenGroupId))
    }

    static ghost function JobStates(queue: seq<RenderJob>): (r: seq<Job>)
      ensures |r| == |queue| && forall i :: 0 <= i < |r| ==> r[i] == JobState(queue[i])
    {
      seq(|queue|, i requires 0 <= i < |queue| => JobState(queue[i]))
    }

    ghost function Groups(): map<Uint32, Group>
      reads this`screenGroups, screenGroups.Values
    {
      map id | id in screenGroups :: screenGroups[id].State()
    }

    ghost function State(): (v: View)
      reads this, screenGroups.Values
      requires Valid()
      ensures WellFormed(v)
    {
      var queue := JobStates(jobs);
      assert forall j :: j in queue ==> exists i :: 0 <= i < |jobs| && j == JobState(jobs[i]);
      View(Groups(), activeScreenGroupId, isReady, hasDispatcher, queue)
    }

    static lemma OneMoreJob(queue: seq<RenderJob>, job: RenderJob)
      ensures JobStates(queue + [job]) == JobStates(queue) + [JobState(job)]
    {
    }

    /** When only `g` has changed, the view has changed in that group alone. */
    twostate lemma OnlyGroupChanged(g: ScreenGroup)
      requires old(Valid()) && Valid() && screenGroups == old(screenGroups) && Owns(g)
      requires forall id :: id in screenGroups && screenGroups[id] != g ==> unchanged(screenGroups[id])
      ensures Groups() == old(Groups())[g.screenGroupId := g.State()]
    {
    }

    constructor ()
      ensures Valid() && State() == View(map[], None, false, false, [])
    {
      screenGroups, activeScreenGroupId, isReady, hasDispatcher, jobs := map[], None, false, false, [];
    }

    method GetOrCreateGroup(id: Uint32) returns (g: ScreenGroup)
      requires Valid()
      modifies this
      ensures Valid() && id in screenGroups && g == screenGroups[id]
      ensures
        var before := old(State());
        State() == if id in before.groups then before else Put(before, id, NewGroup)
    {
      if id in screenGroups {
        return screenGroups[id];
      }
      g := new ScreenGroup(id);
      screenGroups := screenGroups[id := g];
    }

    method SetActiveGroup(id: Uint32, renders: bool) returns (status: Status)
      requires Valid()
      modifies this, screenGroups.Values
      ensures Valid() && screenGroups == old(screenGroups)
      ensures var (v, s) := SwitchTo(old(State()), id, renders); State() == v && status == s
    {
      if id !in screenGroups {
        return NoEntry;
      }
      ghost var v := State();
      if !isReady {
        activeScreenGroupId := Some(id);
        assert State().groups == v.groups;
        return Success;
      }
      if activeScreenGroupId == Some(id) {
        return Success;
      }
      var group := screenGroups[id];
      var previous := ShowInstead(group);
      if group.isRendered {
        return Success;
      }
      if hasDispatcher {
        OneMoreJob(jobs, RenderJob(group, previous));
        jobs := jobs + [RenderJob(group, previous)];
        return Success;
      }
      status := RenderGroupOrRollBack(group, previous, renders);
    }

    /** Hides the previous group and asks `group` to show itself once it is rendered. */
    method ShowInstead(group: ScreenGroup) returns (previous: ScreenGroup?)
      requires Valid() && Owns(group)
      modifies this, screenGroups.Values
      ensures Valid() && screenGroups == old(screenGroups) && jobs == old(jobs)
      ensures State() == Selected(old(State()), group.screenGroupId)
      ensures previous == if old(activeScreenGroupId).Some? then screenGroups[old(activeScreenGroupId).value] else null
    {
      previous := null;
      if activeScreenGroupId.Some? {
        previous := screenGroups[activeScreenGroupId.value];
        previous.Deactivate();
        OnlyGroupChanged(previous);
      }
      label Hidden:
      group.Activate();
      OnlyGroupChanged@Hidden(group);
      activeScreenGroupId := Some(group.screenGroupId);
    }

    method RenderGroupOrRollBack(group: ScreenGroup, previous: ScreenGroup?, renders: bool) returns (status: Status)
      requires Valid() && Owns(group) && (previous != null ==> Owns(previous))
      modifies this, screenGroups.Values
      ensures Valid() && screenGroups == old(screenGroups)
      ensures
        var (v, s) := RenderOrRollBack(old(State()), JobState(RenderJob(group, previous)), renders);
        State() == v && status == s
    {
      status := group.EnsureRendered(renders);
      OnlyGroupChanged(group);
      if status == Success {
        return Success;
      }
      // Another switch came in between, and its group is not ours to undo.
      if activeScreenGroupId != Some(group.screenGroupId) {
        return IoError;
      }
      label Failed:
      group.Deactivate();
      OnlyGroupChanged@Failed(group);
      activeScreenGroupId := if previous != null then Some(previous.screenGroupId) else None;
      label RolledBack:
      if previous != null {
        previous.Activate();
        OnlyGroupChanged@RolledBack(previous);
      }
      status := IoError;
    }

    /** The work queue runs the oldest deferred render. */
    method RunNextJob(renders: bool)
      requires Valid()
      modifies this, screenGroups.Values
      ensures Valid() && screenGroups == old(screenGroups)
      ensures State() == RunJob(old(State()), renders)
    {
      if jobs == [] {
        return;
      }
      var job := jobs[0];
      ghost var v := State();
      jobs := jobs[1..];
      assert State().groups == v.groups && State().jobs == v.jobs[1..];
      var _ := RenderGroupOrRollBack(job.group, job.previous, renders);
    }

    method Render(renders: bool) returns (status: Status)
      requires Valid()
      modifies this, screenGroups.Values
      ensures Valid() && screenGroups == old(screenGroups)
      ensures var (v, s) := RenderView(old(State()), renders); State() == v && status == s
    {
      if activeScreenGroupId.None? {
        return NoEntry;
      }
      ghost var v := State();
      var group := screenGroups[activeScreenGroupId.value];
      status := group.EnsureRendered(renders);
      if status != Success {
        assert State().groups == RenderView(v, renders).0.groups;
        return;
      }
      group.Activate();
      isReady := true;
      assert State().groups == RenderView(v, renders).0.groups;
    }
  }
}
