/** WidgetBase, its property store and its dispatch guard, with every thread that is at work on them. */
module WidgetDispatch {
  import opened Common
  import opened PropertyConversion
  import opened UiModel

  // Inbound events write the store at once and reach the widget only while it is on screen, and showing
  // the widget replays the store. The handler runs in three separate pieces (write the store; read the
  // flags under the guard; notify under the LVGL lock and the guard), and any other thread may run between
  // them.

  type Prop = Uint32
  type Value = ConfigValue

  /**
   What one widget holds, apart from the threads that are at work on it. `applied` is what it shows;
   the properties in `drawn` are redrawn from the store whenever they are notified, as the controls do
   for their value and range, and the others take the value they are notified with.
   */
  datatype Core = Core(
    store: map<Prop, Value>,
    applied: map<Prop, Value>,
    drawn: set<Prop>,
    ready: bool,
    active: bool,
    attached: bool)

  // ---------------------------------------------------------------- the pieces

  function StoreWritten(w: Core, p: Prop, v: Value): Core {
    if p in w.store then w.(store := w.store[p := v]) else w
  }

  predicate Renderable(w: Core) {
    w.attached && w.ready && w.active
  }

  /** What the widget shows of `p` once it is notified with `v`. */
  function Redrawn(w: Core, p: Prop, v: Value): Value {
    if p in w.drawn && p in w.store then w.store[p] else v
  }

  function Notified(w: Core, p: Prop, v: Value): Core {
    if Renderable(w) then w.(applied := w.applied[p := Redrawn(w, p, v)]) else w
  }

  /** The user has moved the widget, so it shows the value already, and the widget stores it. */
  function LocallyWritten(w: Core, p: Prop, v: Value): Core {
    StoreWritten(w, p, v).(applied := w.applied[p := v])
  }

  function ReplayedOne(w: Core, p: Prop): Core
    requires p in w.store
  {
    w.(applied := w.applied[p := w.store[p]])
  }

  function ReplayedAll(w: Core, props: seq<Prop>): Core
    requires forall i :: 0 <= i < |props| ==> props[i] in w.store
    decreases |props|
  {
    if props == [] then w else ReplayedAll(ReplayedOne(w, props[0]), props[1..])
  }

  // ---------------------------------------------------------------- all threads together

  /** A handler that has written the store, or that has also been told the widget is renderable. */
  datatype Handler = Stored(prop: Prop, value: Value) | Approved(prop: Prop, value: Value)

  /**
   `feeds` says which dispatcher (event channel worker) delivers which property; each dispatcher runs
   one handler at a time. `locals` are the properties the widget writes itself when the user moves it;
   the widgets that do so redraw them from the store.
   `replay` lists what an activation in progress has still to replay; the activating thread holds the
   LVGL lock for as long as it is not empty.
   */
  datatype System = System(
    core: Core,
    feeds: set<(nat, Prop)>,
    locals: set<Prop>,
    order: seq<Prop>,
    handlers: map<nat, Handler>,
    replay: seq<Prop>)

  datatype Step =
    | Arrive(d: nat, p: Prop, v: Value)
    | CheckFlags(d: nat)
    | Notify(d: nat)
    | LocalWrite(p: Prop, v: Value)
    | Activate
    | ReplayNext
    | Deactivate
    | Render
    | Detach

  predicate Enabled(s: System, step: Step) {
    match step
    case Arrive(d, p, v) => (d, p) in s.feeds && d !in s.handlers
    case CheckFlags(d) => d in s.handlers && s.handlers[d].Stored?
    case Notify(d) => d in s.handlers && s.handlers[d].Approved? && s.replay == []
    case LocalWrite(p, v) => p in s.locals && s.replay == [] && Renderable(s.core)
    case Activate => s.replay == [] && s.core.attached
    case ReplayNext => s.replay != []
    case Deactivate => s.replay == [] && s.core.attached
    // A group renders its widgets before it activates them.
    case Render => s.replay == [] && s.core.attached && !s.core.active
    case Detach => s.replay == []
  }

  function Next(s: System, step: Step): System
    requires Valid(s) && Enabled(s, step)
  {
    match step
    case Arrive(d, p, v) => s.(core := StoreWritten(s.core, p, v), handlers := s.handlers[d := Stored(p, v)])
    case CheckFlags(d) =>
      var h := s.handlers[d];
      s.(handlers := if Renderable(s.core) then s.handlers[d := Approved(h.prop, h.value)] else s.handlers - {d})
    case Notify(d) =>
      var h := s.handlers[d];
      s.(core := Notified(s.core, h.prop, h.value), handlers := s.handlers - {d})
    case LocalWrite(p, v) => s.(core := LocallyWritten(s.core, p, v))
    case Activate => s.(core := s.core.(active := true), replay := if s.core.ready then s.order else [])
    case ReplayNext => s.(core := ReplayedOne(s.core, s.replay[0]), replay := s.replay[1..])
    case Deactivate => s.(core := s.core.(active := false))
    case Render => s.(core := s.core.(ready := true))
    case Detach => s.(core := s.core.(attached := false))
  }

  predicate Valid(s: System) {
    && s.core.applied.Keys == s.core.store.Keys
    && (forall p :: p in s.core.store ==> p in s.order)
    && (forall i :: 0 <= i < |s.order| ==> s.order[i] in s.core.store)
    && (forall f :: f in s.feeds ==> f.1 in s.core.store)
    && (forall p :: p in s.locals ==> p in s.core.store)
    && s.locals <= s.core.drawn
    && (forall i :: 0 <= i < |s.replay| ==> s.replay[i] in s.core.store)
    && (forall d :: d in s.handlers ==> (d, s.handlers[d].prop) in s.feeds)
  }

  lemma NextIsValid(s: System, step: Step)
    requires Valid(s) && Enabled(s, step)
    ensures Valid(Next(s, step)) && Next(s, step).feeds == s.feeds && Next(s, step).order == s.order
    ensures Next(s, step).locals == s.locals && Next(s, step).core.drawn == s.core.drawn
  {
    if step.Arrive? {
      assert (step.d, step.p).1 in s.core.store;
    } else if step.Notify? {
      assert (step.d, s.handlers[step.d].prop).1 in s.core.store;
    }
  }

  predicate Possible(s: System, steps: seq<Step>)
    requires Valid(s)
    decreases |steps|
  {
    steps == [] ||
    (Enabled(s, steps[0]) &&
     (NextIsValid(s, steps[0]);
      Possible(Next(s, steps[0]), steps[1..])))
  }

  function Run(s: System, steps: seq<Step>): (r: System)
    requires Valid(s) && Possible(s, steps)
    ensures Valid(r) && r.feeds == s.feeds && r.locals == s.locals && r.core.drawn == s.core.drawn
    decreases |steps|
  {
    if steps == [] then s
    else
      NextIsValid(s, steps[0]);
      Run(Next(s, steps[0]), steps[1..])
  }

  // ---------------------------------------------------------------- no update is lost

  /** No property that is drawn from the delivered value is delivered by two dispatchers. */
  predicate SingleFeed(s: System) {
    forall f, g :: f in s.feeds && g in s.feeds && f.1 == g.1 && f.1 !in s.core.drawn ==> f == g
  }

  predicate Delivering(s: System, p: Prop) {
    exists d :: d in s.handlers && s.handlers[d].prop == p
  }

  /** The widget shows the stored value of `p`, or a thread is about to show it. */
  predicate UpToDate(s: System, p: Prop)
    requires Valid(s) && p in s.core.store
  {
    !Renderable(s.core) || s.core.applied[p] == s.core.store[p] || p in s.replay || Delivering(s, p)
  }

  /** What the handler carries is what is stored, or will be read from the store anyhow. */
  predicate Current(s: System, h: Handler)
    requires h.prop in s.core.store
  {
    h.prop in s.core.drawn || h.value == s.core.store[h.prop]
  }

  ghost predicate NothingStale(s: System)
    requires Valid(s)
  {
    && (forall d :: d in s.handlers ==>
          s.handlers[d].prop in s.core.store && Current(s, s.handlers[d]))
    && (forall p :: p in s.core.store ==> UpToDate(s, p))
  }

  /** A widget on screen with nothing in flight shows exactly what is stored. */
  predicate Settled(s: System) {
    Renderable(s.core) && s.replay == [] && s.handlers == map[] ==> s.core.applied == s.core.store
  }

  lemma StillDelivering(s: System, s': System, p: Prop, gone: Option<nat>)
    requires Delivering(s, p)
    requires forall d :: d in s.handlers && gone != Some(d) ==>
               d in s'.handlers && s'.handlers[d].prop == s.handlers[d].prop
    requires gone.Some? && gone.value in s.handlers ==> s.handlers[gone.value].prop != p
    ensures Delivering(s', p)
  {
    var d :| d in s.handlers && s.handlers[d].prop == p;
    assert gone != Some(d);
    assert d in s'.handlers && s'.handlers[d].prop == p;
  }

  lemma ArriveKeeps(s: System, d: nat, p: Prop, v: Value)
    requires Valid(s) && SingleFeed(s) && NothingStale(s) && Enabled(s, Arrive(d, p, v))
    requires Valid(Next(s, Arrive(d, p, v)))
    ensures NothingStale(Next(s, Arrive(d, p, v)))
  {
    var s' := Next(s, Arrive(d, p, v));
    forall e | e in s'.handlers
      ensures s'.handlers[e].prop in s'.core.store && Current(s', s'.handlers[e])
    {
      if e != d {
        assert (e, s.handlers[e].prop) in s.feeds && (d, p) in s.feeds;
      }
    }
    forall q | q in s'.core.store ensures UpToDate(s', q) {
      if q == p {
        assert s'.handlers[d].prop == p;
      } else {
        assert UpToDate(s, q);
        if Delivering(s, q) {
          StillDelivering(s, s', q, None);
        }
      }
    }
  }

  lemma CheckKeeps(s: System, d: nat)
    requires Valid(s) && NothingStale(s) && Enabled(s, CheckFlags(d))
    requires Valid(Next(s, CheckFlags(d)))
    ensures NothingStale(Next(s, CheckFlags(d)))
  {
    var s' := Next(s, CheckFlags(d));
    forall q | q in s'.core.store ensures UpToDate(s', q) {
      assert UpToDate(s, q);
      if Renderable(s.core) && Delivering(s, q) {
        StillDelivering(s, s', q, None);
      }
    }
  }

  lemma NotifyKeeps(s: System, d: nat)
    requires Valid(s) && NothingStale(s) && Enabled(s, Notify(d))
    requires Valid(Next(s, Notify(d)))
    ensures NothingStale(Next(s, Notify(d)))
  {
    var s' := Next(s, Notify(d));
    var h := s.handlers[d];
    forall q | q in s'.core.store ensures UpToDate(s', q) {
      assert UpToDate(s, q);
      if Renderable(s.core) && q != h.prop && Delivering(s, q) {
        StillDelivering(s, s', q, Some(d));
      }
    }
  }

  lemma LocalWriteKeeps(s: System, p: Prop, v: Value)
    requires Valid(s) && NothingStale(s) && Enabled(s, LocalWrite(p, v))
    requires Valid(Next(s, LocalWrite(p, v)))
    ensures NothingStale(Next(s, LocalWrite(p, v)))
  {
    var s' := Next(s, LocalWrite(p, v));
    forall q | q in s'.core.store ensures UpToDate(s', q) {
      assert UpToDate(s, q);
      if Delivering(s, q) {
        StillDelivering(s, s', q, None);
      }
    }
  }

  lemma ReplayKeeps(s: System)
    requires Valid(s) && NothingStale(s) && Enabled(s, ReplayNext)
    requires Valid(Next(s, ReplayNext))
    ensures NothingStale(Next(s, ReplayNext))
  {
    var s' := Next(s, ReplayNext);
    forall q | q in s'.core.store ensures UpToDate(s', q) {
      assert UpToDate(s, q);
      if Delivering(s, q) {
        StillDelivering(s, s', q, None);
      }
    }
  }

  lemma StepKeeps(s: System, step: Step)
    requires Valid(s) && SingleFeed(s) && NothingStale(s) && Enabled(s, step)
    requires Valid(Next(s, step))
    ensures NothingStale(Next(s, step))
  {
    match step
    case Arrive(d, p, v) => ArriveKeeps(s, d, p, v);
    case CheckFlags(d) => CheckKeeps(s, d);
    case Notify(d) => NotifyKeeps(s, d);
    case LocalWrite(p, v) => LocalWriteKeeps(s, p, v);
    case ReplayNext => ReplayKeeps(s);
    case _ =>
      var s' := Next(s, step);
      forall q | q in s'.core.store ensures UpToDate(s', q) {
        assert UpToDate(s, q);
        if Delivering(s, q) {
          StillDelivering(s, s', q, None);
        }
      }
  }

  lemma {:induction false} RunKeeps(s: System, steps: seq<Step>)
    requires Valid(s) && SingleFeed(s) && NothingStale(s) && Possible(s, steps)
    ensures NothingStale(Run(s, steps))
    decreases |steps|
  {
    if steps != [] {
      NextIsValid(s, steps[0]);
      StepKeeps(s, steps[0]);
      RunKeeps(Next(s, steps[0]), steps[1..]);
    }
  }

  /** A configured widget: every property applied as stored, nothing in flight. */
  predicate Configured(s: System) {
    Valid(s) && s.core.attached && s.core.applied == s.core.store && s.handlers == map[] && s.replay == []
  }

  /** Every run of the widget keeps it settled. */
  ghost predicate NeverLosesUpdates(s: System)
    requires Valid(s)
  {
    forall steps :: Possible(s, steps) ==> Settled(Run(s, steps))
  }

  lemma SingleFeedIsSafe(s: System)
    requires Configured(s) && SingleFeed(s)
    ensures NeverLosesUpdates(s)
  {
    forall steps | Possible(s, steps) ensures Settled(Run(s, steps)) {
      RunKeeps(s, steps);
      var r := Run(s, steps);
      if Renderable(r.core) && r.replay == [] && r.handlers == map[] {
        forall p | p in r.core.store ensures r.core.applied[p] == r.core.store[p] {
          assert UpToDate(r, p);
        }
      }
    }
  }

  predicate OnScreen(s: System) {
    Configured(s) && s.core.ready && s.core.active
  }

  lemma FirstOf(s: System, step: Step, rest: seq<Step>)
    requires Valid(s) && Enabled(s, step) && Valid(Next(s, step)) && Possible(Next(s, step), rest)
    ensures Possible(s, [step] + rest) && Run(s, [step] + rest) == Run(Next(s, step), rest)
  {
    assert ([step] + rest)[1..] == rest;
  }

  /** Two approved handlers of one property whose older value is notified last: it stays. */
  lemma OlderNotifiedLast(s: System, c: nat, d: nat, p: Prop) returns (steps: seq<Step>)
    requires Valid(s) && Renderable(s.core) && s.replay == [] && p in s.core.store && p !in s.core.drawn && c != d
    requires exists one, two ::
               one != two && s.core.store[p] == two && s.handlers == map[c := Approved(p, one), d := Approved(p, two)]
    ensures Possible(s, steps) && !Settled(Run(s, steps))
  {
    var s1 := Next(s, Notify(d));
    NextIsValid(s, Notify(d));
    var s2 := Next(s1, Notify(c));
    NextIsValid(s1, Notify(c));
    assert s2.handlers == map[];
    assert s2.core.applied[p] != s2.core.store[p];
    FirstOf(s1, Notify(c), []);
    FirstOf(s, Notify(d), [Notify(c)]);
    steps := [Notify(d)] + [Notify(c)];
  }

  /** Two dispatchers that feed a property drawn from what they deliver: the older value is shown last and stays. */
  lemma TwoFeedsLoseAnUpdate(s: System, c: nat, d: nat, p: Prop) returns (steps: seq<Step>)
    requires OnScreen(s) && (c, p) in s.feeds && (d, p) in s.feeds && p !in s.core.drawn && c != d
    ensures Possible(s, steps) && !Settled(Run(s, steps))
  {
    assert (c, p).1 in s.core.store;
    var one, two := IntValue(1), IntValue(2);
    var s1 := Next(s, Arrive(c, p, one));
    NextIsValid(s, Arrive(c, p, one));
    var s2 := Next(s1, Arrive(d, p, two));
    NextIsValid(s1, Arrive(d, p, two));
    var s3 := Next(s2, CheckFlags(c));
    NextIsValid(s2, CheckFlags(c));
    var s4 := Next(s3, CheckFlags(d));
    NextIsValid(s3, CheckFlags(d));
    assert s4.handlers == map[c := Approved(p, one), d := Approved(p, two)];
    steps := OlderNotifiedLast(s4, c, d, p);
    FirstOf(s3, CheckFlags(d), steps);
    steps := [CheckFlags(d)] + steps;
    FirstOf(s2, CheckFlags(c), steps);
    steps := [CheckFlags(c)] + steps;
    FirstOf(s1, Arrive(d, p, two), steps);
    steps := [Arrive(d, p, two)] + steps;
    FirstOf(s, Arrive(c, p, one), steps);
    steps := [Arrive(c, p, one)] + steps;
  }

  /**
   A widget on screen never loses an update exactly when no property that is drawn from the delivered
   value has two dispatchers. A property drawn from the store, such as the value of a control that is
   both fed and moved, may have any number.
   */
  lemma NeverLosesUpdatesIff(s: System)
    requires OnScreen(s)
    ensures NeverLosesUpdates(s) <==> SingleFeed(s)
  {
    if SingleFeed(s) {
      SingleFeedIsSafe(s);
    } else {
      var f: (nat, Prop), g: (nat, Prop) :|
        f in s.feeds && g in s.feeds && f.1 == g.1 && f.1 !in s.core.drawn && f != g;
      var steps := TwoFeedsLoseAnUpdate(s, f.0, g.0, f.1);
    }
  }

  // ---------------------------------------------------------------- destruction

  /** After Detach no handler reaches the widget any more, whatever still arrives. */
  lemma {:induction false} DetachedIsUntouched(s: System, steps: seq<Step>)
    requires Valid(s) && !s.core.attached && s.replay == [] && Possible(s, steps)
    ensures Run(s, steps).core.applied == s.core.applied && !Run(s, steps).core.attached
    decreases |steps|
  {
    if steps != [] {
      NextIsValid(s, steps[0]);
      DetachedIsUntouched(Next(s, steps[0]), steps[1..]);
    }
  }

  /** The value the run last delivered or had the user choose for `p`. */
  function LastWritten(steps: seq<Step>, p: Prop): Option<Value> {
    if steps == [] then None
    else if LastWritten(steps[1..], p).Some? then LastWritten(steps[1..], p)
    else if (steps[0].Arrive? || steps[0].LocalWrite?) && steps[0].p == p then Some(steps[0].v)
    else None
  }

  /** The store keeps tracking throughout, hidden or detached: it holds what was written last. */
  lemma {:induction false} StoreTracksWrites(s: System, steps: seq<Step>, p: Prop)
    requires Valid(s) && Possible(s, steps) && p in s.core.store
    ensures p in Run(s, steps).core.store
    ensures Run(s, steps).core.store[p] ==
            match LastWritten(steps, p) case Some(v) => v case None => s.core.store[p]
    decreases |steps|
  {
    if steps != [] {
      NextIsValid(s, steps[0]);
      StoreTracksWrites(Next(s, steps[0]), steps[1..], p);
    }
  }

  // ---------------------------------------------------------------- types, over a whole run

  /** Everything the widget stores, shows or is about to show has its property's registered type. */
  ghost predicate Typed(s: System, declared: map<Prop, nat>) {
    && (forall p :: p in s.core.store ==> p in declared && Alternative(s.core.store[p]) == declared[p])
    && (forall p :: p in s.core.applied ==> p in declared && Alternative(s.core.applied[p]) == declared[p])
    && (forall d :: d in s.handlers ==>
          s.handlers[d].prop in declared && Alternative(s.handlers[d].value) == declared[s.handlers[d].prop])
  }

  /** Inbound values went through the coercion, and a widget writes its own properties in their types. */
  ghost predicate Inbound(k: Casts, step: Step, declared: map<Prop, nat>) {
    && (step.Arrive? ==>
          step.p in declared && step.v != Unset
          && exists data :: step.v == CoerceToConfigValue(k, data, declared[step.p]))
    && (step.LocalWrite? ==> step.p in declared && Alternative(step.v) == declared[step.p])
  }

  lemma StepKeepsTypes(k: Casts, s: System, step: Step, declared: map<Prop, nat>)
    requires Valid(s) && Enabled(s, step) && Typed(s, declared) && Inbound(k, step, declared)
    ensures Typed(Next(s, step), declared)
  {
    if step.Arrive? {
      var data :| step.v == CoerceToConfigValue(k, data, declared[step.p]);
      CoercedIsDeclared(k, data, declared[step.p]);
    }
  }

  /** No member of a widget ever changes type, whatever is sent to it and however its threads interleave. */
  lemma {:induction false} TypesNeverChange(k: Casts, s: System, steps: seq<Step>, declared: map<Prop, nat>)
    requires Valid(s) && Possible(s, steps) && Typed(s, declared)
    requires forall i :: 0 <= i < |steps| ==> Inbound(k, steps[i], declared)
    ensures Typed(Run(s, steps), declared)
    decreases |steps|
  {
    if steps != [] {
      NextIsValid(s, steps[0]);
      StepKeepsTypes(k, s, steps[0], declared);
      TypesNeverChange(k, Next(s, steps[0]), steps[1..], declared);
    }
  }

  // ---------------------------------------------------------------- showing the widget

  /** Replaying catches every replayed property up with the store and touches nothing else. */
  lemma {:induction false} ReplayCatchesUp(w: Core, props: seq<Prop>)
    requires forall i :: 0 <= i < |props| ==> props[i] in w.store
    requires w.applied.Keys == w.store.Keys
    ensures
      var r := ReplayedAll(w, props);
      && r == w.(applied := r.applied) && r.applied.Keys == w.applied.Keys
      && forall p :: p in w.store ==> r.applied[p] == if p in props then w.store[p] else w.applied[p]
    decreases |props|
  {
    if props != [] {
      ReplayCatchesUp(ReplayedOne(w, props[0]), props[1..]);
      assert forall p :: p in props <==> p == props[0] || p in props[1..];
    }
  }

  // ---------------------------------------------------------------- the steps against the handlers of an object

  /** While an activation replays, only handlers that have not come to the lock yet go on. */
  lemma TurnsAre(s: System, step: Step)
    requires Valid(s)
    ensures Enabled(s, step) && s.replay != [] ==> step.ReplayNext? || step.Arrive? || step.CheckFlags?
    ensures s.replay == [] && s.core.attached ==> Enabled(s, Activate) && Enabled(s, Deactivate) && Enabled(s, Detach)
    ensures Enabled(s, Render) <==> s.replay == [] && s.core.attached && !s.core.active
    ensures step.LocalWrite? && s.replay == [] && s.core.attached && s.core.ready && s.core.active && step.p in s.locals
            ==> Enabled(s, step)
  {
  }

  function Replays(n: nat): (r: seq<Step>)
    ensures |r| == n
  {
    if n == 0 then [] else [ReplayNext] + Replays(n - 1)
  }

  lemma {:induction false} ReplaysRun(s: System)
    requires Valid(s)
    ensures
      var steps := Replays(|s.replay|);
      Possible(s, steps) && Run(s, steps) == s.(core := ReplayedAll(s.core, s.replay), replay := [])
    decreases |s.replay|
  {
    if s.replay != [] {
      NextIsValid(s, ReplayNext);
      ReplaysRun(Next(s, ReplayNext));
      FirstOf(s, ReplayNext, Replays(|s.replay| - 1));
    }
  }

  /** Showing a rendered widget, with all it replays, ends with everything applied as it is stored. */
  lemma ShownAtOnce(s: System)
    requires Valid(s) && s.replay == [] && s.core.attached
    ensures
      var steps := [Activate] + Replays(if s.core.ready then |s.order| else 0);
      && Possible(s, steps)
      && Run(s, steps) == s.(core := if s.core.ready then s.core.(active := true, applied := s.core.store)
                                     else s.core.(active := true))
  {
    var shown := Next(s, Activate);
    NextIsValid(s, Activate);
    ReplaysRun(shown);
    FirstOf(s, Activate, Replays(|shown.replay|));
    ReplayCatchesUp(shown.core, shown.replay);
    if s.core.ready {
      assert ReplayedAll(shown.core, shown.replay).applied == s.core.store;
    }
  }

  /** The user's move reaches what is stored and what is shown of that one property, and nothing else. */
  lemma MovedAtOnce(s: System, p: Prop, v: Value)
    requires Valid(s) && Enabled(s, LocalWrite(p, v))
    ensures Possible(s, [LocalWrite(p, v)])
    ensures Run(s, [LocalWrite(p, v)])
            == s.(core := s.core.(store := s.core.store[p := v], applied := s.core.applied[p := v]))
  {
    NextIsValid(s, LocalWrite(p, v));
    FirstOf(s, LocalWrite(p, v), []);
  }

  /** Hiding, detaching and rendering change one flag each and nothing that is stored or shown. */
  lemma HiddenAtOnce(s: System)
    requires Valid(s) && s.replay == [] && s.core.attached
    ensures Possible(s, [Deactivate, Detach])
    ensures Run(s, [Deactivate, Detach]) == s.(core := s.core.(active := false, attached := false))
    ensures !s.core.active ==> Possible(s, [Render]) && Run(s, [Render]) == s.(core := s.core.(ready := true))
  {
    var hidden := Next(s, Deactivate);
    NextIsValid(s, Deactivate);
    FirstOf(hidden, Detach, []);
    FirstOf(s, Deactivate, [Detach]);
    assert [Deactivate] + [Detach] == [Deactivate, Detach];
    if !s.core.active {
      FirstOf(s, Render, []);
    }
  }

  /** An event on a widget with nothing else going on is stored, and shown on a widget that is on screen. */
  lemma EventAtOnce(s: System, d: nat, p: Prop, v: Value)
    requires Valid(s) && (d, p) in s.feeds && d !in s.handlers && s.replay == []
    ensures p in s.core.store
    ensures
      var on := s.core.attached && s.core.ready && s.core.active;
      var steps := [Arrive(d, p, v)] + ([CheckFlags(d)] + if on then [Notify(d)] else []);
      && Possible(s, steps)
      && Run(s, steps) == s.(core := s.core.(store := s.core.store[p := v],
                                             applied := if on then s.core.applied[p := v] else s.core.applied))
  {
    assert (d, p).1 in s.core.store;
    var s1 := s.(core := s.core.(store := s.core.store[p := v]), handlers := s.handlers[d := Stored(p, v)]);
    assert Next(s, Arrive(d, p, v)) == s1;
    NextIsValid(s, Arrive(d, p, v));
    CheckedAtOnce(s1, d);
    FirstOf(s, Arrive(d, p, v), [CheckFlags(d)] + if Renderable(s.core) then [Notify(d)] else []);
    assert s.handlers[d := Stored(p, v)] - {d} == s.handlers;
  }

  lemma CheckedAtOnce(s: System, d: nat)
    requires Valid(s) && d in s.handlers && s.handlers[d].Stored? && s.replay == []
    requires s.handlers[d].prop in s.core.store && s.handlers[d].value == s.core.store[s.handlers[d].prop]
    ensures
      var p, v := s.handlers[d].prop, s.handlers[d].value;
      var steps := [CheckFlags(d)] + if Renderable(s.core) then [Notify(d)] else [];
      && Possible(s, steps)
      && Run(s, steps) == s.(core := if Renderable(s.core) then s.core.(applied := s.core.applied[p := v]) else s.core,
                             handlers := s.handlers - {d})
  {
    var s1 := Next(s, CheckFlags(d));
    NextIsValid(s, CheckFlags(d));
    if Renderable(s.core) {
      FirstOf(s1, Notify(d), []);
      FirstOf(s, CheckFlags(d), [Notify(d)]);
      assert s1.handlers - {d} == s.handlers - {d};
    } else {
      FirstOf(s, CheckFlags(d), []);
    }
  }

  // ---------------------------------------------------------------- the objects themselves

  /** `declared` is the type the property was registered with, `effect` what a change of it requires. */
  datatype Entry = Entry(prop: Prop, effect: nat, declared: nat, value: Value)

  predicate DistinctProps(entries: seq<Entry>) {
    forall i, j :: 0 <= i < j < |entries| ==> entries[i].prop != entries[j].prop
  }

  function Props(entries: seq<Entry>): (r: seq<Prop>)
    ensures |r| == |entries| && forall i :: 0 <= i < |r| ==> r[i] == entries[i].prop
  {
    seq(|entries|, i requires 0 <= i < |entries| => entries[i].prop)
  }

  ghost function Contents(entries: seq<Entry>): map<Prop, Value> {
    if entries == [] then map[]
    else
      var last := entries[|entries| - 1];
      Contents(entries[..|entries| - 1])[last.prop := last.value]
  }

  lemma {:induction false} ContentsHolds(entries: seq<Entry>)
    requires DistinctProps(entries)
    ensures forall i :: 0 <= i < |entries| ==>
              entries[i].prop in Contents(entries) && Contents(entries)[entries[i].prop] == entries[i].value
    ensures forall p :: p in Contents(entries) <==> p in Props(entries)
  {
    if entries != [] {
      var n := |entries| - 1;
      ContentsHolds(entries[..n]);
      assert Props(entries) == Props(entries[..n]) + [entries[n].prop];
    }
  }

  lemma ContentsSet(entries: seq<Entry>, i: nat, e: Entry)
    requires DistinctProps(entries) && i < |entries| && e.prop == entries[i].prop
    ensures DistinctProps(entries[i := e]) && Props(entries[i := e]) == Props(entries)
    ensures Contents(entries[i := e]) == Contents(entries)[e.prop := e.value]
  {
    var set' := entries[i := e];
    ContentsHolds(entries);
    ContentsHolds(set');
    assert Props(set') == Props(entries);
    forall p | p in Contents(entries)
      ensures Contents(set')[p] == if p == e.prop then e.value else Contents(entries)[p]
    {
      var j :| 0 <= j < |entries| && Props(entries)[j] == p;
      assert set'[j].prop == p;
    }
  }

  lemma ContentsAdd(entries: seq<Entry>, e: Entry)
    requires DistinctProps(entries) && e.prop !in Props(entries)
    ensures DistinctProps(entries + [e]) && Props(entries + [e]) == Props(entries) + [e.prop]
    ensures Contents(entries + [e]) == Contents(entries)[e.prop := e.value]
  {
    assert (entries + [e])[..|entries|] == entries;
    assert forall j :: 0 <= j < |entries| ==> Props(entries)[j] == entries[j].prop;
  }

  /** The declared properties in registration order, each with its current value. */
  class WidgetPropertyStore {
    var entries: seq<Entry>

    ghost predicate Valid()
      reads this
    {
      DistinctProps(entries)
    }

    constructor ()
      ensures Valid() && entries == []
    {
      entries := [];
    }

    method Find(prop: Prop) returns (i: nat)
      ensures i <= |entries|
      ensures i < |entries| ==> entries[i].prop == prop
      ensures i == |entries| <==> prop !in Props(entries)
    {
      i := 0;
      while i < |entries| && entries[i].prop != prop
        invariant i <= |entries|
        invariant forall j :: 0 <= j < i ==> entries[j].prop != prop
      {
        i := i + 1;
      }
      assert i < |entries| ==> Props(entries)[i] == prop;
    }

    /** Re-registering replaces the entry in place, so the order never changes. */
    method Register(prop: Prop, default: Value, effect: nat)
      requires Valid()
      modifies this
      ensures Valid() && Contents(entries) == old(Contents(entries))[prop := default]
      ensures Props(entries) == old(Props(entries)) + if prop in old(Props(entries)) then [] else [prop]
      ensures forall i :: 0 <= i < |entries| ==>
                entries[i] == if entries[i].prop == prop then Entry(prop, effect, Alternative(default), default)
                              else old(entries)[i]
    {
      var e := Entry(prop, effect, Alternative(default), default);
      var i := Find(prop);
      assert i < |entries| ==> Props(entries)[i] == prop;
      if i < |entries| {
        ContentsSet(entries, i, e);
        entries := entries[i := e];
      } else {
        ContentsAdd(entries, e);
        entries := entries + [e];
      }
    }

    /** Setting a value leaves the type the property was registered with alone. */
    method Set(prop: Prop, value: Value) returns (known: bool)
      requires Valid()
      modifies this
      ensures Valid() && known == (prop in old(Contents(entries)))
      ensures Contents(entries) == if known then old(Contents(entries))[prop := value] else old(Contents(entries))
      ensures Props(entries) == old(Props(entries))
      ensures forall i :: 0 <= i < |entries| ==>
                entries[i] == if known && entries[i].prop == prop then old(entries)[i].(value := value)
                              else old(entries)[i]
    {
      var i := Find(prop);
      ContentsHolds(entries);
      if i == |entries| {
        return false;
      }
      ContentsSet(entries, i, entries[i].(value := value));
      entries := entries[i := entries[i].(value := value)];
      known := true;
    }

    method GetDeclaredAlternative(prop: Prop) returns (alternative: nat)
      requires Valid()
      ensures prop !in Props(entries) ==> alternative == 0
      ensures forall i :: 0 <= i < |entries| && entries[i].prop == prop ==> alternative == entries[i].declared
    {
      var i := Find(prop);
      if i == |entries| {
        assert forall j :: 0 <= j < |entries| ==> entries[j].prop == Props(entries)[j];
        return 0;
      }
      alternative := entries[i].declared;
    }

    method Get(prop: Prop) returns (value: Value)
      requires Valid()
      ensures value == if prop in Contents(entries) then Contents(entries)[prop] else Unset
    {
      var i := Find(prop);
      ContentsHolds(entries);
      if i == |entries| {
        return Unset;
      }
      value := entries[i].value;
    }
  }

  /** Handlers hold the guard, not the widget; a dispatch after Detach does nothing. */
  class WidgetDispatchGuard {
    var hasOwner: bool

    constructor ()
      ensures hasOwner
    {
      hasOwner := true;
    }

    method Detach()
      modifies this
      ensures !hasOwner
    {
      hasOwner := false;
    }
  }

  datatype Outbound = Outbound(target: Prop, channel: nat, eventType: Uint32, payloadKey: Uint32, selectorKey: Uint32,
                               selectorValue: Option<EventData>)

  /** An event as it goes to a channel, with its payload of keys and values. */
  datatype Published = Published(channel: nat, eventType: Uint32, payload: seq<(Uint32, EventData)>)

  /** What a binding publishes for a value: the value, and the selector if the binding has one. */
  function PublishedBy(k: Casts, b: Outbound, value: Value): Published {
    Published(b.channel, b.eventType,
              [(b.payloadKey, ToEventData(k, value))]
              + match b.selectorValue case Some(selector) => [(b.selectorKey, selector)] case None => [])
  }

  /** The events of every binding of the property, in order. */
  function PublishedFor(k: Casts, bindings: seq<Outbound>, target: Prop, value: Value): seq<Published> {
    if bindings == [] then []
    else
      var last := bindings[|bindings| - 1];
      PublishedFor(k, bindings[..|bindings| - 1], target, value)
      + if last.target == target then [PublishedBy(k, last, value)] else []
  }

  class WidgetBase {
    const properties: WidgetPropertyStore
    const guard: WidgetDispatchGuard
    const casts: Casts
    const drawn: set<Prop>
    var applied: map<Prop, Value>
    var isReady: bool
    var isActive: bool
    var outboundBindings: seq<Outbound>

    ghost predicate Valid()
      reads this, properties
    {
      properties.Valid() && applied.Keys == Contents(properties.entries).Keys
    }

    ghost function State(): Core
      reads this, properties, guard
      requires Valid()
    {
      Core(Contents(properties.entries), applied, drawn, isReady, isActive, guard.hasOwner)
    }

    constructor (properties: WidgetPropertyStore, guard: WidgetDispatchGuard, casts: Casts, drawn: set<Prop>)
      requires properties.Valid()
      ensures this.properties == properties && this.guard == guard && Valid()
      ensures
        var store := Contents(properties.entries);
        State() == Core(store, store, drawn, false, false, guard.hasOwner)
    {
      this.properties, this.guard, this.casts, this.drawn := properties, guard, casts, drawn;
      isReady, isActive, outboundBindings := false, false, [];
      var m: map<Prop, Value> := map[];
      ghost var all := properties.entries;
      for i := 0 to |properties.entries|
        invariant m == Contents(all[..i])
      {
        assert all[..i + 1][..i] == all[..i];
        m := m[properties.entries[i].prop := properties.entries[i].value];
      }
      assert all[..|all|] == all;
      applied := m;
    }

    /** The first piece of an inbound handler; false drops the event. */
    method HandlerStore(target: Prop, value: Value) returns (stored: bool)
      requires Valid() && target in State().store
      modifies properties
      ensures Valid() && State() == StoreWritten(old(State()), target, value) && stored
    {
      stored := properties.Set(target, value);
    }

    /** The second piece: the flags, read under the guard alone. */
    method HandlerCheck() returns (renderable: bool)
      requires Valid()
      ensures renderable == Renderable(State())
    {
      renderable := false;
      if guard.hasOwner {
        renderable := isReady && isActive;
      }
    }

    /** The third piece, under the LVGL lock and the guard: the flags are read once more. */
    method HandlerNotify(target: Prop, value: Value)
      requires Valid() && target in State().store
      modifies this
      ensures Valid() && State() == Notified(old(State()), target, value)
    {
      if guard.hasOwner {
        NotifyPropertyChanged(target, value);
      }
    }

    method NotifyPropertyChanged(target: Prop, value: Value)
      requires Valid() && target in State().store
      modifies this
      ensures Valid()
      ensures
        var w := old(State());
        State() == if isReady && isActive then w.(applied := w.applied[target := Redrawn(w, target, value)]) else w
    {
      if !isReady || !isActive {
        return;
      }
      OnPropertyChanged(target, value);
    }

    /** A property drawn from the store does not look at the value it is notified with. */
    method OnPropertyChanged(target: Prop, value: Value)
      requires Valid() && target in State().store
      modifies `applied
      ensures Valid()
      ensures State() == old(State()).(applied := old(applied)[target := Redrawn(old(State()), target, value)])
    {
      var shown := value;
      if target in drawn {
        shown := properties.Get(target);
      }
      applied := applied[target := shown];
    }

    method Publish(b: Outbound, value: Value) returns (event: Published)
      ensures event == PublishedBy(casts, b, value)
    {
      var payload := [(b.payloadKey, ToEventData(casts, value))];
      if b.selectorValue.Some? {
        payload := payload + [(b.selectorKey, b.selectorValue.value)];
      }
      event := Published(b.channel, b.eventType, payload);
    }

    /** The store is written and every outbound binding of the property publishes; unknown properties are ignored. */
    method SetPropertyLocal(target: Prop, value: Value) returns (published: seq<Published>)
      requires Valid()
      modifies properties
      ensures Valid() && State() == StoreWritten(old(State()), target, value)
      ensures published ==
              if target in old(State().store) then PublishedFor(casts, outboundBindings, target, value) else []
    {
      var known := properties.Set(target, value);
      published := [];
      if !known {
        return;
      }
      for i := 0 to |outboundBindings|
        invariant published == PublishedFor(casts, outboundBindings[..i], target, value)
        invariant Valid() && State() == StoreWritten(old(State()), target, value)
      {
        assert outboundBindings[..i + 1][..i] == outboundBindings[..i];
        var b := outboundBindings[i];
        if b.target == target {
          var event := Publish(b, value);
          published := published + [event];
        }
      }
      assert outboundBindings[..|outboundBindings|] == outboundBindings;
    }

    /** The user moves the control: it shows the value already when the event comes, and then the store follows. */
    method OnControlEvent(target: Prop, value: Value) returns (published: seq<Published>)
      requires Valid() && target in State().store
      modifies this, properties
      ensures Valid() && State() == LocallyWritten(old(State()), target, value)
      ensures outboundBindings == old(outboundBindings)
      ensures published == PublishedFor(casts, outboundBindings, target, value)
    {
      applied := applied[target := value];
      published := SetPropertyLocal(target, value);
    }

    /** One inbound event with nothing else running in between. */
    method OnEvent(target: Prop, value: Value)
      requires Valid() && target in State().store
      modifies this, properties
      ensures Valid() && State() == Notified(StoreWritten(old(State()), target, value), target, value)
    {
      var stored := HandlerStore(target, value);
      if !stored {
        return;
      }
      var renderable := HandlerCheck();
      if !renderable {
        return;
      }
      HandlerNotify(target, value);
    }

    method OnActivated()
      requires Valid()
      modifies this
      ensures Valid()
      ensures
        var shown := old(State()).(active := true);
        State() == if shown.ready then shown.(applied := shown.store) else shown
    {
      isActive := true;
      if isReady {
        ReplayProperties();
      }
    }

    method ReplayProperties()
      requires Valid()
      modifies `applied
      ensures Valid() && State() == old(State()).(applied := old(State()).store)
    {
      ghost var all := properties.entries;
      ghost var store := Contents(all);
      ContentsHolds(all);
      for i := 0 to |properties.entries|
        invariant applied.Keys == store.Keys
        invariant forall p :: p in Props(all[..i]) ==> p in store && applied[p] == store[p]
      {
        assert Props(all[..i + 1]) == Props(all[..i]) + [all[i].prop];
        var value := properties.Get(properties.entries[i].prop);
        OnPropertyChanged(properties.entries[i].prop, value);
      }
      assert all[..|all|] == all;
      assert applied == store;
    }

    method OnDeactivated()
      requires Valid()
      modifies this
      ensures Valid() && State() == old(State()).(active := false)
    {
      isActive := false;
    }

    method DetachDispatch()
      requires Valid()
      modifies guard
      ensures Valid() && State() == old(State()).(attached := false)
    {
      guard.Detach();
    }
  }
}
