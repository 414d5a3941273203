/** The overlay and group-switch protocol. */
module UiProtocol {
  import opened Common
  import opened Navigation
  import opened GroupSwitching

  // Navigation advances at once and publishes, the bus worker applies the events to the views later, and
  // failures are reconciled by publishing a close. One call on the service, one handled event and one
  // deferred render are each a single step, because every caller holds the LVGL lock.

  const MAX_DEPTH := 4

  /** An overlay on the stack: the screen it was built for and its screen group. */
  datatype Overlay = Overlay(screen: Uint32, group: Group)

  const MountedGroup := Activated(Rendered(NewGroup, true))

  /** `consumed` is the part of the published sequence the worker has handled, `queue` the rest. */
  datatype Ui = Ui(
    nav: Nav,
    consumed: seq<NavEvent>,
    queue: seq<NavEvent>,
    overlays: seq<Overlay>,
    view: View)

  function Published(u: Ui): seq<NavEvent> {
    u.consumed + u.queue
  }

  // ---------------------------------------------------------------- the overlay stack

  function PushOverlay(overlays: seq<Overlay>, screen: Uint32, renders: bool): (seq<Overlay>, Status) {
    if |overlays| >= MAX_DEPTH then (overlays, NoSpace)
    else if !renders then (overlays, IoError)
    else (overlays + [Overlay(screen, MountedGroup)], Success)
  }

  function PopOverlay(overlays: seq<Overlay>): (seq<Overlay>, Status) {
    if overlays == [] then (overlays, NoEntry) else (overlays[..|overlays| - 1], Success)
  }

  /**
   Four overlays fit. One that is stacked is rendered, asked for, activated and visible, on top; one that is
   refused for want of room or does not render leaves the stack as it was.
   */
  lemma PushAnswers(overlays: seq<Overlay>, screen: Uint32, renders: bool)
    ensures
      var (after, status) := PushOverlay(overlays, screen, renders);
      && (status == NoSpace <==> |overlays| >= 4) && (status == IoError <==> |overlays| < 4 && !renders)
      && (status == Success <==> |overlays| < 4 && renders) && (status != Success ==> after == overlays)
      && (status == Success ==>
            |after| == |overlays| + 1 && after[..|overlays|] == overlays && after[|overlays|].screen == screen
            && after[|overlays|].group == Group(true, true, true, false))
  {
  }

  // ---------------------------------------------------------------- steps

  /** What can go wrong while one event is applied. */
  datatype Luck = Luck(builds: bool, renders: bool)

  datatype UiStep =
    | Ask(intent: Intent, argument: Uint32)
    | ScrimTap
    | Handle(luck: Luck)
    | DeferredRender(renders: bool)
    | StartView(renders: bool)

  function Publish(u: Ui, o: Outcome): Ui {
    u.(nav := o.nav, queue := u.queue + o.events)
  }

  function AppliedEvent(u: Ui, e: NavEvent, luck: Luck): Ui
    requires WellFormed(u.view)
  {
    match e
    case ShowGroup(id) =>
      var view := SwitchTo(u.view, id, luck.renders).0;
      u.(view := view, nav := if view.active.Some? then u.nav.(active := view.active) else u.nav)
    case ShowOverlay(screen) =>
      var (overlays, status) := PushOverlay(u.overlays, screen, luck.renders);
      if luck.builds && status == Success then u.(overlays := overlays) else Publish(u, RequestClose(u.nav))
    case CloseOverlay(_) =>
      u.(overlays := PopOverlay(u.overlays).0)
  }

  function UiNext(u: Ui, step: UiStep): Ui
    requires WellFormed(u.view)
  {
    match step
    case Ask(intent, argument) => Publish(u, Handled(u.nav, intent, argument))
    case ScrimTap => if u.overlays == [] then u else Publish(u, RequestClose(u.nav))
    case Handle(luck) =>
      if u.queue == [] then u
      else AppliedEvent(u.(consumed := u.consumed + [u.queue[0]], queue := u.queue[1..]), u.queue[0], luck)
    case DeferredRender(renders) => u.(view := RunJob(u.view, renders))
    case StartView(renders) => u.(view := RenderView(u.view, renders).0)
  }

  // ---------------------------------------------------------------- the invariant

  /**
   The stack holds exactly the overlay the handled events leave open, except while a show has failed
   and the close that answers it is still queued.
   */
  ghost predicate StackFollows(u: Ui) {
    match Open(u.consumed)
    case None => u.overlays == []
    case Some(screen) => u.overlays == [Overlay(screen, MountedGroup)] || (u.overlays == [] && u.queue != [])
  }

  ghost predicate UiInvariant(u: Ui) {
    && WellNested(Published(u)) && u.nav.overlay == Open(Published(u))
    && StackFollows(u)
    && Coherent(u.view)
  }

  lemma PrefixIsWellNested(a: seq<NavEvent>, b: seq<NavEvent>)
    requires WellNested(a + b)
    ensures WellNested(a)
  {
    forall i | 0 < i < |a| ensures Follows(a, i) {
      assert Follows(a + b, i) && a[i - 1] == (a + b)[i - 1] && a[i] == (a + b)[i];
    }
    assert a != [] ==> a[0] == (a + b)[0];
  }

  /** The first queued event fits what the handled ones leave open. */
  lemma HeadFits(u: Ui)
    requires WellNested(Published(u)) && u.queue != []
    ensures
      match Open(u.consumed)
      case Some(screen) => u.queue[0] == CloseOverlay(screen)
      case None => !u.queue[0].CloseOverlay?
  {
    var all := Published(u);
    var n := |u.consumed|;
    assert all[n] == u.queue[0];
    if n > 0 {
      assert all[n - 1] == u.consumed[n - 1];
      assert Follows(all, n);
    }
  }

  lemma PublishKeepsInvariant(u: Ui, o: Outcome)
    requires Coherent(u.view) && StackFollows(u)
    requires WellNested(Published(u) + o.events) && o.nav.overlay == Open(Published(u) + o.events)
    ensures UiInvariant(Publish(u, o))
  {
    assert Published(Publish(u, o)) == Published(u) + o.events;
  }

  lemma HandleKeepsInvariant(u: Ui, luck: Luck)
    requires UiInvariant(u) && u.queue != []
    ensures UiInvariant(UiNext(u, Handle(luck)))
  {
    HeadFits(u);
    var e := u.queue[0];
    var u1 := u.(consumed := u.consumed + [e], queue := u.queue[1..]);
    assert Published(u1) == Published(u);
    assert Open(u1.consumed) == if e.ShowOverlay? then Some(e.screen) else None;
    match e
    case ShowGroup(id) =>
      StepKeepsCoherent(u.view, Switch(id, luck.renders));
      assert Published(UiNext(u, Handle(luck))) == Published(u);
    case CloseOverlay(_) =>
    case ShowOverlay(screen) =>
      var (overlays, status) := PushOverlay(u1.overlays, screen, luck.renders);
      if !(luck.builds && status == Success) {
        FailedShow(u1, screen);
      }
  }

  /** A show that fails always leaves the matching close queued. */
  lemma FailedShow(u: Ui, screen: Uint32)
    requires WellNested(Published(u)) && u.nav.overlay == Open(Published(u))
    requires Open(u.consumed) == Some(screen) && u.overlays == [] && Coherent(u.view)
    ensures UiInvariant(Publish(u, RequestClose(u.nav)))
    ensures Publish(u, RequestClose(u.nav)).queue[0..1] == [CloseOverlay(screen)]
  {
    HandledKeepsNesting(u.nav, DismissOverlay, 0, Published(u));
    var o := RequestClose(u.nav);
    var u' := Publish(u, o);
    assert Published(u') == Published(u) + o.events;
    if u.queue == [] {
      assert Published(u) == u.consumed;
    }
    HeadFits(u');
  }

  lemma StepKeepsInvariant(u: Ui, step: UiStep)
    requires UiInvariant(u)
    ensures UiInvariant(UiNext(u, step))
  {
    match step
    case Ask(intent, argument) =>
      HandledKeepsNesting(u.nav, intent, argument, Published(u));
      PublishKeepsInvariant(u, Handled(u.nav, intent, argument));
    case ScrimTap =>
      HandledKeepsNesting(u.nav, DismissOverlay, 0, Published(u));
      PublishKeepsInvariant(u, RequestClose(u.nav));
    case Handle(luck) => if u.queue != [] { HandleKeepsInvariant(u, luck); }
    case DeferredRender(renders) => StepKeepsCoherent(u.view, Job1(renders));
    case StartView(renders) => StepKeepsCoherent(u.view, RenderAll(renders));
  }

  /** A tap beside an open overlay asks for its close, and one without an overlay on the stack does nothing. */
  lemma ScrimTapDismisses(u: Ui)
    requires UiInvariant(u)
    ensures u.overlays == [] ==> UiNext(u, ScrimTap) == u
    ensures u.overlays != [] && u.nav.overlay.Some? ==>
              UiNext(u, ScrimTap) == u.(nav := u.nav.(overlay := None),
                                        queue := u.queue + [CloseOverlay(u.nav.overlay.value)])
  {
  }

  // ---------------------------------------------------------------- whole runs

  function UiRun(u: Ui, steps: seq<UiStep>): (r: Ui)
    requires UiInvariant(u)
    ensures UiInvariant(r)
    decreases |steps|
  {
    if steps == [] then u
    else
      StepKeepsInvariant(u, steps[0]);
      UiRun(UiNext(u, steps[0]), steps[1..])
  }

  /** How the application comes up: nothing published, no overlay, any view configuration. */
  predicate Booted(u: Ui) {
    u.consumed == [] && u.queue == [] && u.overlays == [] && u.nav.overlay.None? && Coherent(u.view)
  }

  /**
   Over every run, with any mix of requests, scrim taps, handled events, failing shows and failing
   renders: what was published is well nested, at most one overlay is stacked, and once the queue is
   empty the stack holds exactly the overlay navigation believes is open, built for that screen.
   */
  lemma OverlayProtocol(u: Ui, steps: seq<UiStep>)
    requires Booted(u)
    ensures UiInvariant(u)
    ensures
      var r := UiRun(u, steps);
      && WellNested(Published(r))
      && |r.overlays| <= 1
      && (r.queue == [] ==>
            r.overlays == match r.nav.overlay case None => [] case Some(screen) => [Overlay(screen, MountedGroup)])
  {
    assert Published(u) == [];
    var r := UiRun(u, steps);
    if r.queue == [] {
      assert Published(r) == r.consumed;
    }
  }

  /** The controller never applies a group switch while an overlay is on the stack. */
  lemma GroupSwitchesFindNoOverlay(u: Ui, steps: seq<UiStep>)
    requires Booted(u) && UiInvariant(u)
    requires UiRun(u, steps).queue != [] && UiRun(u, steps).queue[0].ShowGroup?
    ensures UiRun(u, steps).overlays == []
  {
    HeadFits(UiRun(u, steps));
  }

  /** In a published sequence, shows and closes of overlays strictly alternate, screen by screen. */
  lemma OverlayEventsAlternate(events: seq<NavEvent>, i: nat, j: nat)
    requires WellNested(events) && i < j < |events|
    requires !events[i].ShowGroup? && !events[j].ShowGroup?
    requires forall k :: i < k < j ==> events[k].ShowGroup?
    ensures events[i].ShowOverlay? <==> events[j].CloseOverlay?
    ensures events[i].ShowOverlay? ==> events[j] == CloseOverlay(events[i].screen) && j == i + 1
  {
    if events[i].ShowOverlay? {
      assert Follows(events, i + 1);
    } else if events[j].CloseOverlay? {
      CloseFollowsShow(events, j);
    }
  }

  lemma CloseFollowsShow(events: seq<NavEvent>, j: nat)
    requires WellNested(events) && j < |events| && events[j].CloseOverlay?
    ensures j > 0 && events[j - 1] == ShowOverlay(events[j].screen)
  {
    if j > 0 {
      assert Follows(events, j);
    }
  }

  // ---------------------------------------------------------------- navigation against the view

  predicate GroupPending(u: Ui) {
    exists i :: 0 <= i < |u.queue| && u.queue[i].ShowGroup?
  }

  /** Unless a switch is still queued, navigation names the group the view shows. */
  predicate Agrees(u: Ui) {
    GroupPending(u) || u.nav.active == u.view.active
  }

  /** The next deferred render, should it fail, takes the view back to another group. */
  predicate CanRollBack(v: View) {
    && v.jobs != [] && v.jobs[0].group in v.groups && !v.groups[v.jobs[0].group].rendered
    && v.active == Some(v.jobs[0].group)
  }

  predicate RollsBack(u: Ui, step: UiStep) {
    step.DeferredRender? && !step.renders && CanRollBack(u.view)
  }

  lemma RunJobMovesIff(v: View, renders: bool)
    requires Coherent(v)
    ensures RunJob(v, renders).active != v.active <==> !renders && CanRollBack(v)
  {
    if v.jobs != [] {
      assert v.jobs[0] in v.jobs;
    }
  }

  /**
   Reconciliation keeps the two in agreement over every step but one: a deferred render that fails for
   the active group with no switch queued behind it. The view goes back and navigation is never told.
   */
  lemma OnlyDeferredRollbackDisagrees(u: Ui, step: UiStep)
    requires UiInvariant(u) && u.view.active.Some? && Agrees(u)
    ensures !Agrees(UiNext(u, step)) <==> RollsBack(u, step) && !GroupPending(u)
  {
    var u' := UiNext(u, step);
    match step
    case Ask(intent, argument) => PublishKeepsAgreement(u, Handled(u.nav, intent, argument));
    case ScrimTap => PublishKeepsAgreement(u, RequestClose(u.nav));
    case Handle(luck) => if u.queue != [] { HandleKeepsAgreement(u, luck); }
    case DeferredRender(renders) =>
      SamePending(u, u');
      RunJobMovesIff(u.view, renders);
    case StartView(renders) => SamePending(u, u');
  }

  lemma SamePending(u: Ui, u': Ui)
    requires u.queue == u'.queue
    ensures GroupPending(u) == GroupPending(u')
  {
  }

  lemma PublishKeepsAgreement(u: Ui, o: Outcome)
    requires Agrees(u)
    requires o.nav.active != u.nav.active ==> o.events != [] && o.events[0].ShowGroup?
    ensures Agrees(Publish(u, o))
  {
    var u' := Publish(u, o);
    if GroupPending(u) {
      var i :| 0 <= i < |u.queue| && u.queue[i].ShowGroup?;
      assert u'.queue[i] == u.queue[i];
    } else if o.nav.active != u.nav.active {
      assert u'.queue[|u.queue|] == o.events[0];
    }
  }

  lemma HandleKeepsAgreement(u: Ui, luck: Luck)
    requires UiInvariant(u) && u.view.active.Some? && Agrees(u) && u.queue != []
    ensures Agrees(UiNext(u, Handle(luck)))
  {
    var e := u.queue[0];
    var u1 := u.(consumed := u.consumed + [e], queue := u.queue[1..]);
    if e.ShowGroup? {
      StepKeepsCoherent(u.view, Switch(e.group, luck.renders));
    } else {
      if GroupPending(u) {
        var i :| 0 <= i < |u.queue| && u.queue[i].ShowGroup?;
        assert u1.queue[i - 1] == u.queue[i];
      }
      PublishKeepsAgreement(u1, RequestClose(u.nav));
    }
  }

  // ---------------------------------------------------------------- navigation against the view, over runs

  /** How often the view has gone back since a switch was last applied. */
  function MissedNext(u: Ui, step: UiStep, missed: nat): nat {
    if step.Handle? && u.queue != [] && u.queue[0].ShowGroup? then 0
    else if RollsBack(u, step) then missed + 1
    else missed
  }

  function Missed(u: Ui, steps: seq<UiStep>, missed: nat): nat
    requires UiInvariant(u)
    decreases |steps|
  {
    if steps == [] then missed
    else
      StepKeepsInvariant(u, steps[0]);
      Missed(UiNext(u, steps[0]), steps[1..], MissedNext(u, steps[0], missed))
  }

  /** The group the view ended on when a switch was last applied. */
  function LandedNext(u: Ui, step: UiStep, landed: Option<Uint32>): Option<Uint32>
    requires WellFormed(u.view)
  {
    if step.Handle? && u.queue != [] && u.queue[0].ShowGroup? then UiNext(u, step).view.active else landed
  }

  function Landed(u: Ui, steps: seq<UiStep>, landed: Option<Uint32>): Option<Uint32>
    requires UiInvariant(u)
    decreases |steps|
  {
    if steps == [] then landed
    else
      StepKeepsInvariant(u, steps[0]);
      Landed(UiNext(u, steps[0]), steps[1..], LandedNext(u, steps[0], landed))
  }

  /** Unless a switch is queued, navigation names the group the view landed on; the view may have gone back since. */
  predicate Tracks(u: Ui, landed: Option<Uint32>, missed: nat) {
    && (GroupPending(u) || u.nav.active == landed)
    && (missed == 0 ==> u.view.active == landed) && (missed == 1 ==> u.view.active != landed)
  }

  lemma StepKeepsTracking(u: Ui, step: UiStep, landed: Option<Uint32>, missed: nat)
    requires UiInvariant(u) && u.view.active.Some? && Tracks(u, landed, missed)
    ensures Tracks(UiNext(u, step), LandedNext(u, step, landed), MissedNext(u, step, missed))
    ensures UiNext(u, step).view.active.Some?
  {
    var u' := UiNext(u, step);
    match step
    case Ask(intent, argument) => PublishKeepsTracking(u, Handled(u.nav, intent, argument), landed, missed);
    case ScrimTap => PublishKeepsTracking(u, RequestClose(u.nav), landed, missed);
    case Handle(luck) => if u.queue != [] { HandleKeepsTracking(u, luck, landed, missed); }
    case DeferredRender(renders) =>
      SamePending(u, u');
      RunJobMovesIff(u.view, renders);
      if u.view.jobs != [] {
        assert u.view.jobs[0] in u.view.jobs;
      }
    case StartView(renders) => SamePending(u, u');
  }

  lemma PublishKeepsTracking(u: Ui, o: Outcome, landed: Option<Uint32>, missed: nat)
    requires Tracks(u, landed, missed)
    requires o.nav.active != u.nav.active ==> o.events != [] && o.events[0].ShowGroup?
    ensures Tracks(Publish(u, o), landed, missed)
  {
    var u' := Publish(u, o);
    if GroupPending(u) {
      var i :| 0 <= i < |u.queue| && u.queue[i].ShowGroup?;
      assert u'.queue[i] == u.queue[i];
    } else if o.nav.active != u.nav.active {
      assert u'.queue[|u.queue|] == o.events[0];
    }
  }

  lemma HandleKeepsTracking(u: Ui, luck: Luck, landed: Option<Uint32>, missed: nat)
    requires UiInvariant(u) && u.view.active.Some? && Tracks(u, landed, missed) && u.queue != []
    ensures
      var u' := UiNext(u, Handle(luck));
      u'.view.active.Some?
      && Tracks(u', LandedNext(u, Handle(luck), landed), MissedNext(u, Handle(luck), missed))
  {
    var e := u.queue[0];
    var u1 := u.(consumed := u.consumed + [e], queue := u.queue[1..]);
    if e.ShowGroup? {
      StepKeepsCoherent(u.view, Switch(e.group, luck.renders));
    } else {
      if GroupPending(u) {
        var i :| 0 <= i < |u.queue| && u.queue[i].ShowGroup?;
        assert u1.queue[i - 1] == u.queue[i];
      }
      PublishKeepsTracking(u1, RequestClose(u.nav), landed, missed);
    }
  }

  lemma {:induction false} RunKeepsTracking(u: Ui, steps: seq<UiStep>, landed: Option<Uint32>, missed: nat)
    requires UiInvariant(u) && u.view.active.Some? && Tracks(u, landed, missed)
    ensures Tracks(UiRun(u, steps), Landed(u, steps, landed), Missed(u, steps, missed))
    decreases |steps|
  {
    if steps != [] {
      StepKeepsInvariant(u, steps[0]);
      StepKeepsTracking(u, steps[0], landed, missed);
      RunKeepsTracking(UiNext(u, steps[0]), steps[1..], LandedNext(u, steps[0], landed),
                       MissedNext(u, steps[0], missed));
    }
  }

  /**
   Over every run, whenever no switch is queued: navigation names the group on which the view ended when a
   switch was last applied, so the two agree exactly when the view is still, or again, on that group.
   */
  lemma NavigationNamesLastSwitch(u: Ui, steps: seq<UiStep>)
    requires Booted(u) && UiInvariant(u) && u.view.active.Some? && u.nav.active == u.view.active
    ensures
      var r := UiRun(u, steps);
      var landed := Landed(u, steps, u.view.active);
      !GroupPending(r) ==>
        r.nav.active == landed && (r.nav.active == r.view.active <==> r.view.active == landed)
  {
    RunKeepsTracking(u, steps, u.view.active, 0);
  }

  /** So they agree if the view has not gone back since that switch, and disagree if it has gone back once. */
  lemma NavigationAgreesUnlessMissed(u: Ui, steps: seq<UiStep>)
    requires Booted(u) && UiInvariant(u) && u.view.active.Some? && u.nav.active == u.view.active
    ensures
      var r := UiRun(u, steps);
      !GroupPending(r) ==>
        && (Missed(u, steps, 0) == 0 ==> r.nav.active == r.view.active)
        && (Missed(u, steps, 0) == 1 ==> r.nav.active != r.view.active)
  {
    RunKeepsTracking(u, steps, u.view.active, 0);
  }

  lemma FirstUiStep(u: Ui, step: UiStep, rest: seq<UiStep>)
    requires UiInvariant(u) && UiInvariant(UiNext(u, step))
    ensures UiRun(u, [step] + rest) == UiRun(UiNext(u, step), rest)
  {
    assert ([step] + rest)[1..] == rest;
  }

  /** The shortest run that goes wrong: the group that was asked for does not render. */
  lemma RollbackGoesUnreported(u: Ui, group: Uint32, luck: Luck)
    requires Booted(u) && UiInvariant(u) && u.view.ready && u.view.deferred && u.view.jobs == []
    requires u.nav.active == u.view.active && u.view.active != Some(group)
    requires group in u.nav.groupIds && group in u.view.groups && !u.view.groups[group].rendered
    ensures
      var r := UiRun(u, [Ask(GoToGroup, group)] + ([Handle(luck)] + [DeferredRender(false)]));
      r.queue == [] && r.view.jobs == [] && r.nav.active == Some(group) && r.view.active == u.view.active
  {
    var u1 := UiNext(u, Ask(GoToGroup, group));
    StepKeepsInvariant(u, Ask(GoToGroup, group));
    assert u1.queue == [ShowGroup(group)];
    var u2 := UiNext(u1, Handle(luck));
    StepKeepsInvariant(u1, Handle(luck));
    assert u2.view.jobs == [Job(group, u.view.active)];
    StepKeepsInvariant(u2, DeferredRender(false));
    FirstUiStep(u2, DeferredRender(false), []);
    FirstUiStep(u1, Handle(luck), [DeferredRender(false)]);
    FirstUiStep(u, Ask(GoToGroup, group), [Handle(luck)] + [DeferredRender(false)]);
    assert [DeferredRender(false)] + [] == [DeferredRender(false)];
  }

  // ---------------------------------------------------------------- the objects themselves

  /** What makes an overlay modal; only its identity matters. */
  class Scrim {
    constructor () {}
  }

  datatype Entry = Entry(screen: Uint32, group: ScreenGroup, scrim: Scrim)

  class OverlayHost {
    const navigation: NavigationService
    var entries: seq<Entry>
    var isContainerHidden: bool

    constructor (navigation: NavigationService)
      ensures this.navigation == navigation && entries == [] && Valid()
    {
      this.navigation := navigation;
      entries := [];
      isContainerHidden := true;
    }

    ghost function Mounted(): set<ScreenGroup>
      reads this
    {
      set e | e in entries :: e.group
    }

    /** The container is hidden exactly while nothing is stacked, and no group is stacked twice. */
    ghost predicate Valid()
      reads this
    {
      && (isContainerHidden <==> entries == [])
      && (forall i, j :: 0 <= i < j < |entries| ==> entries[i].group != entries[j].group)
    }

    ghost function Stack(): (r: seq<Overlay>)
      reads this, Mounted()
      ensures |r| == |entries|
    {
      seq(|entries|, i requires 0 <= i < |entries| reads this, Mounted() =>
        Overlay(entries[i].screen, entries[i].group.State()))
    }

    method UpdateVisibility()
      modifies `isContainerHidden
      ensures isContainerHidden <==> entries == []
    {
      isContainerHidden := entries == [];
    }

    method Mount(group: ScreenGroup, renders: bool) returns (status: Status)
      modifies group
      ensures status == if old(group.isRendered) || renders then Success else IoError
      ensures status == Success ==> group.State() == Activated(Rendered(old(group.State()), renders))
    {
      status := group.EnsureRendered(renders);
      if status != Success {
        return;
      }
      group.Activate();
    }

    method Push(screen: Uint32, group: ScreenGroup, renders: bool) returns (status: Status)
      requires Valid() && group !in Mounted() && group.State() == NewGroup
      modifies this, group
      ensures Valid()
      ensures
        var (overlays, s) := if old(group.screens) == [] then (old(Stack()), Invalid)
                             else PushOverlay(old(Stack()), screen, renders);
        Stack() == overlays && status == s
      ensures status != Success ==> entries == old(entries)
      ensures status == Success ==>
                |entries| == |old(entries)| + 1 && entries[..|old(entries)|] == old(entries)
                && entries[|old(entries)|].group == group && fresh(entries[|old(entries)|].scrim)
    {
      if group.screens == [] {
        return Invalid;
      }
      if |entries| >= MAX_DEPTH {
        return NoSpace;
      }
      var scrim := new Scrim();
      status := Mount(group, renders);
      if status != Success {
        return;
      }
      entries := entries + [Entry(screen, group, scrim)];
      UpdateVisibility();
    }

    method Pop() returns (status: Status)
      requires Valid()
      modifies this, Mounted()
      ensures Valid()
      ensures
        var (overlays, s) := PopOverlay(old(Stack()));
        Stack() == overlays && status == s
      ensures entries == if old(entries) == [] then [] else old(entries[..|entries| - 1])
    {
      if entries == [] {
        return NoEntry;
      }
      var top := entries[|entries| - 1];
      entries := entries[..|entries| - 1];
      top.group.Deactivate();
      UpdateVisibility();
      status := Success;
    }

    /** Only a tap on the scrim of the top overlay asks navigation to close it. */
    method OnScrimClicked(scrim: Scrim)
      requires navigation.Valid()
      modifies navigation, navigation.channel
      ensures
        var top := entries != [] && entries[|entries| - 1].scrim == scrim;
        var o := if top then RequestClose(old(navigation.State()))
                 else Outcome(old(navigation.State()), NoEntry, []);
        navigation.Did(o, o.status, old(navigation.channel.queue))
    {
      if entries == [] || entries[|entries| - 1].scrim != scrim {
        return;
      }
      var _ := navigation.CloseOverlay();
    }
  }

  class UiController {
    const mainView: MainView
    const navigation: NavigationService
    const overlayHost: OverlayHost

    constructor (mainView: MainView, navigation: NavigationService, overlayHost: OverlayHost)
      requires overlayHost.navigation == navigation
      ensures this.mainView == mainView && this.navigation == navigation && this.overlayHost == overlayHost
    {
      this.mainView := mainView;
      this.navigation := navigation;
      this.overlayHost := overlayHost;
    }

    ghost predicate Valid()
      reads this, mainView, navigation, overlayHost
    {
      && mainView.Valid() && navigation.Valid() && overlayHost.Valid()
      && overlayHost.Mounted() !! mainView.screenGroups.Values
    }

    ghost function Objects(): set<object>
      reads mainView, overlayHost
    {
      {mainView, navigation, navigation.history, navigation.channel, overlayHost}
      + mainView.screenGroups.Values + overlayHost.Mounted()
    }

    /** The views and the service as one state, `queue` being what the worker has still to handle. */
    ghost function State(consumed: seq<NavEvent>): Ui
      reads this, mainView, navigation, overlayHost, Objects()
      requires Valid()
    {
      Ui(navigation.State(), consumed, navigation.channel.queue, overlayHost.Stack(), mainView.State())
    }

    /** The bus worker takes the oldest event off the channel and hands it to the controller. */
    method DispatchNext(luck: Luck, ghost consumed: seq<NavEvent>) returns (ghost handled: seq<NavEvent>)
      requires Valid()
      modifies Objects()
      ensures Valid() && mainView.screenGroups == old(mainView.screenGroups)
      ensures State(handled) == UiNext(old(State(consumed)), Handle(luck))
    {
      handled := consumed;
      var queue := navigation.channel.queue;
      if queue != [] {
        navigation.channel.queue := queue[1..];
        handled := consumed + [queue[0]];
        OnNavigationChanged(queue[0], luck, handled);
      }
    }

    method OnNavigationChanged(event: NavEvent, luck: Luck, ghost consumed: seq<NavEvent>)
      requires Valid()
      modifies Objects()
      ensures Valid() && mainView.screenGroups == old(mainView.screenGroups)
      ensures State(consumed) == AppliedEvent(old(State(consumed)), event, luck)
    {
      match event
      case ShowGroup(id) => ShowGroup(id, luck.renders);
      case ShowOverlay(screen) =>
        var _ := ShowOverlay(screen, luck);
      case CloseOverlay(_) => CloseOverlay();
    }

    method ShowGroup(id: Uint32, renders: bool)
      requires Valid()
      modifies mainView, mainView.screenGroups.Values, navigation
      ensures Valid() && mainView.screenGroups == old(mainView.screenGroups)
      ensures
        var view := SwitchTo(old(mainView.State()), id, renders).0;
        && mainView.State() == view
        && navigation.State() == if view.active.Some? then old(navigation.State()).(active := view.active)
                                 else old(navigation.State())
    {
      var _ := mainView.SetActiveGroup(id, renders);
      // The view may have gone back, and the service takes over what it shows.
      if mainView.activeScreenGroupId.Some? {
        navigation.SetActiveGroupId(mainView.activeScreenGroupId.value);
      }
    }

    /** `asks` is whether the settings owners are asked for their state, for the bindings of the new screen. */
    method ShowOverlay(screen: Uint32, luck: Luck) returns (asks: bool)
      requires Valid()
      modifies overlayHost, navigation, navigation.channel
      ensures Valid()
      ensures
        var (overlays, s) := PushOverlay(old(overlayHost.Stack()), screen, luck.renders);
        var shown := luck.builds && s == Success;
        var o := if shown then Outcome(old(navigation.State()), Success, []) else RequestClose(old(navigation.State()));
        && asks == shown
        && overlayHost.Stack() == (if shown then overlays else old(overlayHost.Stack()))
        && navigation.Did(o, o.status, old(navigation.channel.queue))
    {
      if !luck.builds {
        var _ := navigation.CloseOverlay();
        return false;
      }
      var group := new ScreenGroup(screen);
      group.AddScreen(ScreenItem(screen, 0));
      var pushed := overlayHost.Push(screen, group, luck.renders);
      asks := pushed == Success;
      if !asks {
        var _ := navigation.CloseOverlay();
      }
    }

    method CloseOverlay()
      requires Valid()
      modifies overlayHost, overlayHost.Mounted()
      ensures Valid()
      ensures overlayHost.Stack() == PopOverlay(old(overlayHost.Stack())).0
    {
      var _ := overlayHost.Pop();
    }
  }
}
