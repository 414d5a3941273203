/** The settings protocol for display brightness. */
module Settings {
  import opened Common
  import opened Slider

  // A slider writes its own VALUE at once and asks the owner; the owner clamps, applies and announces a
  // fact; every slider takes the announced value; the persistence service waits for quiet and asks the
  // owner to store; the owner writes to flash from its own work queue; and a configuration pushed from
  // outside is stored and then taken into use. The event bus is FIFO and lossless with one worker; each
  // work queue runs one task at a time; every step below is one uninterruptible piece of one thread.

  /** The hashed id of the brightness setting; any fixed value serves. */
  const BRIGHTNESS: Uint32 := 1

  const BRIGHTNESS_MIN := 10.0
  const BRIGHTNESS_MAX := 255.0
  const BRIGHTNESS_STEP := 5.0

  datatype Message =
    | ChangeRequested(requested: real)
    | Changed(id: Uint32, value: int)
    | RangeChanged
    | StateRequested
    | PersistRequested(id: Uint32)

  // ---------------------------------------------------------------- the owner

  /** `writing` is the snapshot a flash write in progress is storing. */
  datatype Owner = Owner(current: int, stored: int, scheduled: bool, writing: Option<int>)

  function Accepted(requested: real): int {
    Lround(Clamp(requested, BRIGHTNESS_MIN, BRIGHTNESS_MAX))
  }

  function Distance(n: int, x: real): real { if n as real <= x then x - n as real else n as real - x }

  /** No whole number from 10 to 255 is nearer to the request; of two that are as near it is the larger. */
  ghost predicate Nearest(value: int, requested: real) {
    10 <= value <= 255
    && forall n: int :: 10 <= n <= 255 && n != value ==>
         Distance(value, requested) < Distance(n, requested)
         || (Distance(value, requested) == Distance(n, requested) && n < value)
  }

  /** Any request, however far out of range, is taken for the nearest brightness there is. */
  lemma AcceptedIsNearest(requested: real)
    ensures Nearest(Accepted(requested), requested)
  {
    var clamped := Clamp(requested, BRIGHTNESS_MIN, BRIGHTNESS_MAX);
    var value := Accepted(requested);
    assert 10.0 <= clamped <= 255.0 && value == (clamped + 0.5).Floor;
    forall n: int | 10 <= n <= 255 && n != value
      ensures Distance(value, requested) < Distance(n, requested)
              || (Distance(value, requested) == Distance(n, requested) && n < value)
    {
      assert value as real - 0.5 <= clamped < value as real + 0.5;
      assert n as real <= value as real - 1.0 || n as real >= value as real + 1.0;
    }
  }

  /** A request handled with nothing in between; `accepts` is whether the panel takes the brightness. */
  function OwnerAsked(o: Owner, requested: real, accepts: bool): (Owner, seq<Message>) {
    var value := Accepted(requested);
    if value == o.current || !accepts then (o, []) else (o.(current := value), [Changed(BRIGHTNESS, value)])
  }

  function OwnerState(o: Owner): seq<Message> {
    [RangeChanged, Changed(BRIGHTNESS, o.current)]
  }

  function PersistScheduled(o: Owner): Owner {
    o.(scheduled := true)
  }

  function WriteBegun(o: Owner): Owner {
    o.(scheduled := false, writing := Some(o.current))
  }

  function WriteEnded(o: Owner): Owner {
    match o.writing
    case None => o
    case Some(value) => o.(stored := value, writing := None)
  }

  /** Taking the stored configuration into use with nothing in between. */
  function Reloaded(o: Owner): (Owner, seq<Message>) {
    (o.(current := o.stored), [Changed(BRIGHTNESS, o.stored)])
  }

  // ---------------------------------------------------------------- the persistence service

  /**
   `arming` is set between the two halves of the Changed handler (recording the id, re-arming the
   timer); `publishing` holds the ids a fired timer swapped out and has still to publish.
   */
  datatype Keeper = Keeper(pending: seq<Uint32>, arming: bool, armed: bool, publishing: seq<Uint32>)

  function Recorded(k: Keeper, id: Uint32): Keeper {
    k.(pending := if id in k.pending then k.pending else k.pending + [id], arming := true)
  }

  function Rearmed(k: Keeper): Keeper {
    k.(arming := false, armed := true)
  }

  function Fired(k: Keeper): Keeper {
    k.(armed := false, pending := [], publishing := k.pending)
  }

  // ---------------------------------------------------------------- the whole system

  /**
   How far a thread that changes or announces the brightness has come. The brightness is set in one
   critical section, read again for the payload in another, and the payload is queued after that. A
   thread that pushes a configuration has stored it before it takes it into use.
   */
  datatype Work = Idle | Supplied | Setting(value: int) | Reading | Sending(value: int)

  /**
   What has happened, for stating results; no step depends on it. `announced` is the value of the last
   announcement queued, `late` whether that value was no longer the one in use when it was queued;
   `refused` holds the values the panel has refused since, as far as they were not in use all the same;
   `asks` holds what each slider has asked for since an announcement last reached it.
   */
  datatype History = History(announced: Option<int>, late: bool, asks: map<nat, real>, refused: set<int>)

  function AskOf(h: History, i: nat): Option<real> {
    if i in h.asks then Some(h.asks[i]) else None
  }

  /** `worker` is the bus worker inside a handler of the owner, `pusher` the thread of a pushed configuration. */
  datatype System = System(
    sliders: seq<Control>,
    queue: seq<Message>,
    worker: Work,
    pusher: Work,
    owner: Owner,
    keeper: Keeper,
    history: History)

  datatype Step =
    // the system's own steps
    | Deliver
    | WorkerSet(accepts: bool)
    | WorkerRead
    | WorkerSend
    | PusherTake
    | PusherSet
    | PusherRead
    | PusherSend
    | Rearm
    | Fire
    | PublishNext
    | BeginWrite
    | EndWrite
    // what the outside does
    | Drag(i: nat, knob: int)
    | Press(i: nat)
    | Release(i: nat)
    | ShowSlider(i: nat)
    | HideSlider(i: nat)
    | AddSlider(control: Control)
    | Ask(requested: real)
    | OtherChanged(id: Uint32, value: int)
    | Supply(value: int)

  predicate Own(step: Step) {
    step.Deliver? || step.WorkerSet? || step.WorkerRead? || step.WorkerSend?
    || step.PusherTake? || step.PusherSet? || step.PusherRead? || step.PusherSend?
    || step.Rearm? || step.Fire? || step.PublishNext? || step.BeginWrite? || step.EndWrite?
  }

  predicate Valid(s: System) {
    && (forall i :: 0 <= i < |s.sliders| ==> ValidControl(s.sliders[i]))
    && Distinct(s.keeper.pending)
    && (s.keeper.pending != [] ==> s.keeper.armed || s.keeper.arming)
    && !s.worker.Supplied?
  }

  predicate Enabled(s: System, step: Step) {
    match step
    case Deliver => s.queue != [] && s.worker.Idle? && !s.keeper.arming
    case WorkerSet(_) => s.worker.Setting?
    case WorkerRead => s.worker.Reading?
    case WorkerSend => s.worker.Sending?
    case PusherTake => s.pusher.Supplied?
    case PusherSet => s.pusher.Setting?
    case PusherRead => s.pusher.Reading?
    case PusherSend => s.pusher.Sending?
    case Rearm => s.keeper.arming
    case Fire => s.keeper.armed && s.keeper.publishing == []
    case PublishNext => s.keeper.publishing != []
    case BeginWrite => s.owner.scheduled && s.owner.writing.None?
    case EndWrite => s.owner.writing.Some?
    case Drag(i, k) => i < |s.sliders| && s.sliders[i].active && 0 <= k <= s.sliders[i].scale.count
    case Press(i) => i < |s.sliders| && s.sliders[i].active
    case Release(i) => i < |s.sliders| && s.sliders[i].active
    case ShowSlider(i) => i < |s.sliders|
    case HideSlider(i) => i < |s.sliders|
    case AddSlider(control) => ValidControl(control) && !control.active
    case Ask(_) => true
    case OtherChanged(id, _) => id != BRIGHTNESS
    case Supply(_) => s.pusher.Idle?
  }

  function ValuesArrived(sliders: seq<Control>, value: real): (r: seq<Control>)
    requires forall i :: 0 <= i < |sliders| ==> ValidControl(sliders[i])
    ensures |r| == |sliders|
    ensures forall i :: 0 <= i < |sliders| ==> ValidControl(sliders[i]) && r[i] == ValueArrived(sliders[i], value)
  {
    if sliders == [] then []
    else
      assert ValidControl(sliders[0]);
      [ValueArrived(sliders[0], value)] + ValuesArrived(sliders[1..], value)
  }

  function RangesArrived(sliders: seq<Control>): (r: seq<Control>)
    ensures |r| == |sliders|
    ensures forall i :: 0 <= i < |r| ==>
              r[i] == RangeArrived(sliders[i], BRIGHTNESS_MIN, BRIGHTNESS_MAX, BRIGHTNESS_STEP)
  {
    seq(|sliders|, i requires 0 <= i < |sliders| =>
      RangeArrived(sliders[i], BRIGHTNESS_MIN, BRIGHTNESS_MAX, BRIGHTNESS_STEP))
  }

  function Send(s: System, messages: seq<Message>): System {
    s.(queue := s.queue + messages)
  }

  /** An announcement of `value` is queued. */
  function Announced(s: System, value: int): System {
    var h := History(Some(value), value != s.owner.current, s.history.asks, {});
    Send(s, [Changed(BRIGHTNESS, value)]).(history := h)
  }

  /** The panel refused `value` while `current` was in use. */
  function Denied(h: History, value: int, current: int): History {
    if value == current then h else h.(refused := h.refused + {value})
  }

  function Delivered(s: System, m: Message): System
    requires Valid(s) && s.worker.Idle?
  {
    match m
    case ChangeRequested(value) =>
      if Accepted(value) == s.owner.current then s else s.(worker := Setting(Accepted(value)))
    case Changed(id, value) =>
      var s1 := s.(keeper := Recorded(s.keeper, id));
      if id != BRIGHTNESS then s1
      else s1.(sliders := ValuesArrived(s.sliders, value as real), history := s.history.(asks := map[]))
    case RangeChanged => s.(sliders := RangesArrived(s.sliders))
    case StateRequested => Send(s.(worker := Reading), [RangeChanged])
    case PersistRequested(id) => if id == BRIGHTNESS then s.(owner := PersistScheduled(s.owner)) else s
  }

  function DraggedSystem(s: System, i: nat, k: int): System
    requires Valid(s) && Enabled(s, Drag(i, k))
  {
    var (slider, asked) := Dragged(s.sliders[i], k);
    var s1 := s.(sliders := s.sliders[i := slider]);
    if asked.None? then s1
    else Send(s1.(history := s.history.(asks := s.history.asks[i := asked.value])), [ChangeRequested(asked.value)])
  }

  function Next(s: System, step: Step): System
    requires Valid(s) && Enabled(s, step)
  {
    match step
    case Deliver => Delivered(s.(queue := s.queue[1..]), s.queue[0])
    case WorkerSet(accepts) =>
      if accepts then s.(owner := s.owner.(current := s.worker.value), worker := Reading)
      else s.(worker := Idle, history := Denied(s.history, s.worker.value, s.owner.current))
    case WorkerRead => s.(worker := Sending(s.owner.current))
    case WorkerSend => Announced(s.(worker := Idle), s.worker.value)
    case PusherTake => s.(pusher := Setting(s.owner.stored))
    case PusherSet => s.(owner := s.owner.(current := s.pusher.value), pusher := Reading)
    case PusherRead => s.(pusher := Sending(s.owner.current))
    case PusherSend => Announced(s.(pusher := Idle), s.pusher.value)
    case Rearm => s.(keeper := Rearmed(s.keeper))
    case Fire => s.(keeper := Fired(s.keeper))
    case PublishNext =>
      Send(s.(keeper := s.keeper.(publishing := s.keeper.publishing[1..])),
           [PersistRequested(s.keeper.publishing[0])])
    case BeginWrite => s.(owner := WriteBegun(s.owner))
    case EndWrite => s.(owner := WriteEnded(s.owner))
    case Drag(i, k) => DraggedSystem(s, i, k)
    case Press(i) => s.(sliders := s.sliders[i := Pressed(s.sliders[i])])
    case Release(i) => s.(sliders := s.sliders[i := Released(s.sliders[i])])
    case ShowSlider(i) => s.(sliders := s.sliders[i := Shown(s.sliders[i])])
    case HideSlider(i) => s.(sliders := s.sliders[i := Hidden(s.sliders[i])])
    case AddSlider(control) => Send(s.(sliders := s.sliders + [control]), [StateRequested])
    case Ask(value) => Send(s, [ChangeRequested(value)])
    case OtherChanged(id, value) => Send(s, [Changed(id, value)])
    case Supply(value) => s.(owner := s.owner.(stored := value), pusher := Supplied)
  }

  // ---------------------------------------------------------------- runs

  lemma NextIsValid(s: System, step: Step)
    requires Valid(s) && Enabled(s, step)
    ensures Valid(Next(s, step))
  {
    match step
    case Deliver => DeliveredIsValid(s.(queue := s.queue[1..]), s.queue[0]);
    case _ =>
  }

  lemma DeliveredIsValid(s: System, m: Message)
    requires Valid(s) && s.worker.Idle?
    ensures Valid(Delivered(s, m))
  {
  }

  /** Every step of the run is enabled when it is taken. */
  predicate Possible(s: System, steps: seq<Step>)
    requires Valid(s)
    decreases |steps|
  {
    steps == [] ||
    (Enabled(s, steps[0]) &&
     (NextIsValid(s, steps[0]);
      Possible(Next(s, steps[0]), steps[1..])))
  }

  function Run(s: System, steps: seq<Step>): (r: System)
    requires Valid(s) && Possible(s, steps)
    ensures Valid(r)
    decreases |steps|
  {
    if steps == [] then s
    else
      NextIsValid(s, steps[0]);
      Run(Next(s, steps[0]), steps[1..])
  }

  // ---------------------------------------------------------------- nothing is lost

  predicate Announces(w: Work) {
    w.Reading? || w.Sending?
  }

  /** An announcement will be queued behind everything that is queued now. */
  predicate Coming(s: System) {
    Announces(s.worker) || !s.pusher.Idle?
  }

  /** Something in flight will make the owner store the brightness again. */
  predicate Outstanding(s: System) {
    || HasChanged(s.queue)
    || Coming(s)
    || BRIGHTNESS in s.keeper.pending
    || BRIGHTNESS in s.keeper.publishing
    || PersistRequested(BRIGHTNESS) in s.queue
    || s.owner.scheduled
  }

  predicate HasChanged(queue: seq<Message>) {
    exists i :: 0 <= i < |queue| && queue[i].Changed? && queue[i].id == BRIGHTNESS
  }

  /** What flash will hold once the write in progress, if any, is done. */
  function Effective(o: Owner): int {
    if o.writing.Some? then o.writing.value else o.stored
  }

  predicate NothingLost(s: System) {
    Effective(s.owner) != s.owner.current ==> Outstanding(s)
  }

  lemma HasChangedGrows(a: seq<Message>, b: seq<Message>)
    ensures HasChanged(a + b) <==> HasChanged(a) || HasChanged(b)
  {
    if HasChanged(a) {
      var i :| 0 <= i < |a| && a[i].Changed? && a[i].id == BRIGHTNESS;
      assert (a + b)[i] == a[i];
    }
    if HasChanged(b) {
      var i :| 0 <= i < |b| && b[i].Changed? && b[i].id == BRIGHTNESS;
      assert (a + b)[|a| + i] == b[i];
    }
  }

  lemma HasChangedPops(queue: seq<Message>)
    requires queue != []
    ensures HasChanged(queue) <==> (queue[0].Changed? && queue[0].id == BRIGHTNESS) || HasChanged(queue[1..])
  {
    assert queue == [queue[0]] + queue[1..];
    HasChangedGrows([queue[0]], queue[1..]);
    assert HasChanged([queue[0]]) <==> queue[0].Changed? && queue[0].id == BRIGHTNESS by {
      assert [queue[0]][0] == queue[0];
    }
  }

  lemma AnnouncedHasChanged(queue: seq<Message>, value: int)
    ensures HasChanged(queue + [Changed(BRIGHTNESS, value)])
  {
    assert (queue + [Changed(BRIGHTNESS, value)])[|queue|] == Changed(BRIGHTNESS, value);
  }

  lemma StepLosesNothing(s: System, step: Step)
    requires Valid(s) && Enabled(s, step) && NothingLost(s)
    ensures NothingLost(Next(s, step))
  {
    var s' := Next(s, step);
    match step
    case Deliver => DeliveryLosesNothing(s);
    case PublishNext => HasChangedGrows(s.queue, [PersistRequested(s.keeper.publishing[0])]);
    case WorkerSend => AnnouncedHasChanged(s.queue, s.worker.value);
    case PusherSend => AnnouncedHasChanged(s.queue, s.pusher.value);
    case AddSlider(_) => HasChangedGrows(s.queue, [StateRequested]);
    case Ask(value) => HasChangedGrows(s.queue, [ChangeRequested(value)]);
    case OtherChanged(id, value) => HasChangedGrows(s.queue, [Changed(id, value)]);
    case Drag(i, k) =>
      var asked := Dragged(s.sliders[i], k).1;
      HasChangedGrows(s.queue, if asked.Some? then [ChangeRequested(asked.value)] else []);
    case _ =>
  }

  lemma DeliveryLosesNothing(s: System)
    requires Valid(s) && Enabled(s, Deliver) && NothingLost(s)
    ensures NothingLost(Next(s, Deliver))
  {
    var m, rest := s.queue[0], s.queue[1..];
    HasChangedPops(s.queue);
    assert forall x :: x in s.queue <==> x == m || x in rest;
    match m
    case StateRequested => HasChangedGrows(rest, [RangeChanged]);
    case _ =>
  }

  /**
   How the protocol starts: flash holds the brightness in use, every slider has been built with
   whatever range and value its configuration gave it but is not on screen yet, and the request for
   every owner's state has been published.
   */
  predicate Booted(s: System) {
    && Valid(s) && s.owner.stored == s.owner.current && s.owner.writing.None?
    && s.worker.Idle? && s.pusher.Idle? && s.history == History(None, false, map[], {})
    && s.queue == [StateRequested] && s.keeper == Keeper([], false, false, [])
    && (forall i :: 0 <= i < |s.sliders| ==> !s.sliders[i].active)
  }

  /**
   In every reachable state, with configurations pushed at any moment, if the brightness in use is not
   what flash holds, then an announcement, a pending id with its timer armed or about to be, a
   PersistRequested, or a write is outstanding; and no id is ever pending twice.
   */
  lemma NoChangeIsLost(s: System, steps: seq<Step>)
    requires Booted(s) && Possible(s, steps)
    ensures NothingLost(Run(s, steps))
    ensures Distinct(Run(s, steps).keeper.pending)
    ensures Run(s, steps).keeper.pending != [] ==> Run(s, steps).keeper.armed || Run(s, steps).keeper.arming
  {
    RunLosesNothing(s, steps);
  }

  lemma {:induction false} RunLosesNothing(s: System, steps: seq<Step>)
    requires Valid(s) && Possible(s, steps) && NothingLost(s)
    ensures NothingLost(Run(s, steps))
    decreases |steps|
  {
    if steps != [] {
      StepLosesNothing(s, steps[0]);
      RunLosesNothing(Next(s, steps[0]), steps[1..]);
    }
  }

  // ---------------------------------------------------------------- the system settles

  function Weight(m: Message): nat {
    match m
    case ChangeRequested(_) => 11
    case Changed(_, _) => 7
    case RangeChanged => 1
    case StateRequested => 11
    case PersistRequested(_) => 3
  }

  function WorkLeft(w: Work): nat {
    match w
    case Idle => 0
    case Supplied => 11
    case Setting(_) => 10
    case Reading => 9
    case Sending(_) => 8
  }

  function QueueWeight(queue: seq<Message>): nat {
    if queue == [] then 0 else Weight(queue[0]) + QueueWeight(queue[1..])
  }

  /** The work that is left when nothing more comes in from outside. */
  function Measure(s: System): nat {
    QueueWeight(s.queue) + WorkLeft(s.worker) + WorkLeft(s.pusher)
    + 4 * |s.keeper.pending| + (if s.keeper.arming then 2 else 0) + (if s.keeper.armed then 1 else 0)
    + 4 * |s.keeper.publishing|
    + (if s.owner.scheduled then 2 else 0) + (if s.owner.writing.Some? then 1 else 0)
  }

  lemma {:induction false} QueueWeightAdds(a: seq<Message>, b: seq<Message>)
    ensures QueueWeight(a + b) == QueueWeight(a) + QueueWeight(b)
  {
    if a == [] {
      assert a + b == b;
    } else {
      QueueWeightAdds(a[1..], b);
      assert (a + b)[1..] == a[1..] + b;
    }
  }

  lemma QueueWeightOfOne(m: Message)
    ensures QueueWeight([m]) == Weight(m)
  {
    assert [m][1..] == [];
  }

  lemma DeliveryDecreases(s: System)
    requires Valid(s) && Enabled(s, Deliver)
    ensures Measure(Next(s, Deliver)) < Measure(s)
  {
    var rest := s.queue[1..];
    match s.queue[0]
    case StateRequested =>
      QueueWeightAdds(rest, [RangeChanged]);
      QueueWeightOfOne(RangeChanged);
    case _ =>
  }

  /** Every step the system takes on its own leaves less work. */
  lemma OwnStepDecreases(s: System, step: Step)
    requires Valid(s) && Enabled(s, step) && Own(step)
    ensures Measure(Next(s, step)) < Measure(s)
  {
    match step
    case Deliver => DeliveryDecreases(s);
    case PublishNext =>
      var m := PersistRequested(s.keeper.publishing[0]);
      QueueWeightAdds(s.queue, [m]);
      QueueWeightOfOne(m);
    case WorkerSend =>
      QueueWeightAdds(s.queue, [Changed(BRIGHTNESS, s.worker.value)]);
      QueueWeightOfOne(Changed(BRIGHTNESS, s.worker.value));
    case PusherSend =>
      QueueWeightAdds(s.queue, [Changed(BRIGHTNESS, s.pusher.value)]);
      QueueWeightOfOne(Changed(BRIGHTNESS, s.pusher.value));
    case _ =>
  }

  /** Nothing is left that the system could do on its own. */
  predicate Quiet(s: System) {
    s.queue == [] && s.worker.Idle? && s.pusher.Idle?
    && s.keeper == Keeper([], false, false, []) && !s.owner.scheduled && s.owner.writing.None?
  }

  /** Some own step is enabled as long as anything is left to do. */
  function OwnStep(s: System): (step: Step)
    requires Valid(s) && !Quiet(s)
    ensures Own(step) && Enabled(s, step)
  {
    if s.worker.Setting? then WorkerSet(true)
    else if s.worker.Reading? then WorkerRead
    else if s.worker.Sending? then WorkerSend
    else if s.pusher.Supplied? then PusherTake
    else if s.pusher.Setting? then PusherSet
    else if s.pusher.Reading? then PusherRead
    else if s.pusher.Sending? then PusherSend
    else if s.keeper.publishing != [] then PublishNext
    else if s.keeper.arming then Rearm
    else if s.queue != [] then Deliver
    else if s.keeper.armed then Fire
    else if s.owner.writing.Some? then EndWrite
    else BeginWrite
  }

  lemma QuietMeansNothingToDo(s: System)
    requires Valid(s)
    ensures Quiet(s) <==> forall step :: Own(step) ==> !Enabled(s, step)
    ensures Quiet(s) <==> Measure(s) == 0
  {
    if !Quiet(s) {
      var step := OwnStep(s);
      OwnStepDecreases(s, step);
    }
  }

  // ---------------------------------------------------------------- every slider agrees

  /** The value of the last Changed still queued for the brightness. */
  function LastChanged(queue: seq<Message>): Option<int> {
    if queue == [] then None
    else
      var m := queue[|queue| - 1];
      if m.Changed? && m.id == BRIGHTNESS then Some(m.value) else LastChanged(queue[..|queue| - 1])
  }

  lemma {:induction false} LastChangedOfSum(a: seq<Message>, b: seq<Message>)
    ensures LastChanged(a + b) == if LastChanged(b).Some? then LastChanged(b) else LastChanged(a)
    decreases |b|
  {
    if b == [] {
      assert a + b == a;
    } else {
      assert (a + b)[..|a + b| - 1] == a + b[..|b| - 1];
      LastChangedOfSum(a, b[..|b| - 1]);
    }
  }

  lemma LastChangedOfOne(m: Message)
    ensures LastChanged([m]) == if m.Changed? && m.id == BRIGHTNESS then Some(m.value) else None
  {
    assert [m][..0] == [];
  }

  lemma LastChangedPops(queue: seq<Message>)
    requires queue != []
    ensures LastChanged(queue) ==
            if LastChanged(queue[1..]).Some? then LastChanged(queue[1..]) else LastChanged([queue[0]])
  {
    assert queue == [queue[0]] + queue[1..];
    LastChangedOfSum([queue[0]], queue[1..]);
  }

  /** The owner's range is queued with an announcement of the value somewhere behind it. */
  predicate Rescue(queue: seq<Message>) {
    queue != [] && ((queue[0].RangeChanged? && LastChanged(queue[1..]).Some?) || Rescue(queue[1..]))
  }

  lemma {:induction false} RescueGrows(a: seq<Message>, b: seq<Message>)
    ensures Rescue(a) || Rescue(b) ==> Rescue(a + b)
    decreases |a|
  {
    if a == [] {
      assert a + b == b;
    } else {
      assert (a + b)[1..] == a[1..] + b;
      RescueGrows(a[1..], b);
      LastChangedOfSum(a[1..], b);
    }
  }

  lemma {:induction false} RescueAnnounces(queue: seq<Message>)
    requires Rescue(queue)
    ensures LastChanged(queue).Some?
    decreases |queue|
  {
    LastChangedPops(queue);
    if Rescue(queue[1..]) {
      RescueAnnounces(queue[1..]);
    }
  }

  /** A queued range is rescued by an announcement behind it. */
  lemma {:induction false} RangeIsRescued(queue: seq<Message>, value: int)
    requires RangeChanged in queue
    ensures Rescue(queue + [Changed(BRIGHTNESS, value)])
    decreases |queue|
  {
    var more := [Changed(BRIGHTNESS, value)];
    assert (queue + more)[1..] == queue[1..] + more;
    LastChangedOfSum(queue[1..], more);
    LastChangedOfOne(more[0]);
    if !queue[0].RangeChanged? {
      RangeIsRescued(queue[1..], value);
    }
  }

  /** The owner takes the request exactly as it stands. */
  predicate Kept(requested: real) {
    Accepted(requested) as real == requested
  }

  const PublishedScale := ScaleOf(BRIGHTNESS_MIN, BRIGHTNESS_MAX, BRIGHTNESS_STEP)

  /** Every position of a slider over the owner's published range asks for a value the owner keeps. */
  lemma PublishedRangeIsKept(k: int)
    requires 0 <= k <= PublishedScale.count
    ensures PublishedScale == Scale(10.0, 255.0, 5.0, 49)
    ensures ToValue(PublishedScale, k) == (10 + 5 * k) as real && Kept(ToValue(PublishedScale, k))
  {
    assert (255.0 - 10.0) / 5.0 == 49.0;
  }

  predicate HasPublishedRange(c: Control) {
    c.low == BRIGHTNESS_MIN && c.high == BRIGHTNESS_MAX && c.step == BRIGHTNESS_STEP
  }

  /** The slider will be told the value: it is queued, or an announcement is sure to be. */
  predicate WillHear(s: System) {
    LastChanged(s.queue).Some? || StateRequested in s.queue || Coming(s)
  }

  /** The slider has the owner's range, or will get it and be told the value after that. */
  predicate WillRange(c: Control, s: System) {
    || HasPublishedRange(c)
    || StateRequested in s.queue
    || Rescue(s.queue)
    || (RangeChanged in s.queue && Coming(s))
  }

  /** A slider that asked on its own account holds the value in use, or its request is on its way, or was refused. */
  predicate Answered(c: Control, s: System) {
    || c.value == s.owner.current as real
    || (Kept(c.value) && ChangeRequested(c.value) in s.queue)
    || (Kept(c.value) && s.worker == Setting(Accepted(c.value)))
    || (Kept(c.value) && Accepted(c.value) in s.history.refused)
  }

  /** A slider that is not about to be told the value holds what it asked for since, or else what was last announced. */
  predicate HoldsFact(c: Control, ask: Option<real>, s: System) {
    s.history.announced.Some?
    && match ask
       case Some(asked) => c.value == asked && Kept(asked) && Answered(c, s)
       case None => c.value == s.history.announced.value as real
  }

  predicate InStep(c: Control) {
    c.active ==> c.scale == ScaleOf(c.low, c.high, c.step)
  }

  predicate SliderInvariant(c: Control, ask: Option<real>, s: System) {
    ValidControl(c) && InStep(c) && WillRange(c, s) && (WillHear(s) || HoldsFact(c, ask, s))
  }

  /**
   Unless an announcement is being made: the last one queued says what is in use if and only if it was
   not late, and what was refused since is not in use.
   */
  predicate HistoryIsTrue(s: System) {
    s.history.announced.Some? && !Announces(s.worker) && !Announces(s.pusher) ==>
      && (s.history.late <==> s.history.announced.value != s.owner.current)
      && s.owner.current !in s.history.refused
  }

  predicate Agreement(s: System) {
    && (LastChanged(s.queue).Some? ==> LastChanged(s.queue) == s.history.announced)
    && HistoryIsTrue(s)
    && (forall i :: 0 <= i < |s.sliders| ==> SliderInvariant(s.sliders[i], AskOf(s.history, i), s))
  }

  /** Messages that announce nothing change nothing for a slider. */
  lemma SendingKeepsSlider(c: Control, ask: Option<real>, s: System, more: seq<Message>)
    requires SliderInvariant(c, ask, s) && LastChanged(more).None?
    ensures SliderInvariant(c, ask, Send(s, more))
  {
    LastChangedOfSum(s.queue, more);
    RescueGrows(s.queue, more);
  }

  lemma SendingKeepsAgreement(s: System, more: seq<Message>)
    requires Agreement(s) && LastChanged(more).None?
    ensures Agreement(Send(s, more))
  {
    var s' := Send(s, more);
    LastChangedOfSum(s.queue, more);
    forall i | 0 <= i < |s'.sliders| ensures SliderInvariant(s'.sliders[i], AskOf(s'.history, i), s') {
      SendingKeepsSlider(s.sliders[i], AskOf(s.history, i), s, more);
    }
  }

  /** After an announcement every slider is about to hear of it. */
  lemma AnnouncementKeepsSlider(c: Control, ask: Option<real>, s: System, s1: System, value: int)
    requires SliderInvariant(c, ask, s) && s1.queue == s.queue
    ensures SliderInvariant(c, ask, Announced(s1, value))
  {
    var more := [Changed(BRIGHTNESS, value)];
    LastChangedOfSum(s.queue, more);
    LastChangedOfOne(more[0]);
    RescueGrows(s.queue, more);
    if RangeChanged in s.queue {
      RangeIsRescued(s.queue, value);
    }
  }

  /** `s1` is `s` with the announcing thread back at rest. */
  lemma AnnouncementKeepsAgreement(s: System, s1: System, value: int)
    requires Agreement(s) && s1.queue == s.queue && s1.sliders == s.sliders
    ensures Agreement(Announced(s1, value))
  {
    var s' := Announced(s1, value);
    LastChangedOfSum(s.queue, [Changed(BRIGHTNESS, value)]);
    LastChangedOfOne(Changed(BRIGHTNESS, value));
    forall i | 0 <= i < |s'.sliders| ensures SliderInvariant(s'.sliders[i], AskOf(s'.history, i), s') {
      AnnouncementKeepsSlider(s.sliders[i], AskOf(s.history, i), s, s1, value);
    }
  }

  /** A thread moves on to where an announcement is sure to come. */
  lemma ComingKeepsAgreement(s: System, s': System)
    requires Agreement(s) && s'.queue == s.queue && s'.sliders == s.sliders && s'.history == s.history && Coming(s')
    requires Announces(s'.worker) || Announces(s'.pusher)
             || (s'.owner.current == s.owner.current && !Announces(s.worker) && !Announces(s.pusher))
    ensures Agreement(s')
  {
    forall i | 0 <= i < |s'.sliders| ensures SliderInvariant(s'.sliders[i], AskOf(s'.history, i), s') {
      assert SliderInvariant(s.sliders[i], AskOf(s.history, i), s);
    }
  }

  /** Neither the sliders, the queue, the threads nor the brightness in use change. */
  lemma ElsewhereKeepsAgreement(s: System, s': System)
    requires Agreement(s) && s'.owner.current == s.owner.current
    requires s'.queue == s.queue && s'.worker == s.worker && s'.pusher == s.pusher && s'.history == s.history
    requires |s'.sliders| == |s.sliders|
    requires forall i :: 0 <= i < |s.sliders| ==> SameProperties(s.sliders[i], s'.sliders[i])
    ensures Agreement(s')
  {
    forall i | 0 <= i < |s'.sliders| ensures SliderInvariant(s'.sliders[i], AskOf(s'.history, i), s') {
      assert SliderInvariant(s.sliders[i], AskOf(s.history, i), s) && SameProperties(s.sliders[i], s'.sliders[i]);
    }
  }

  /** The stored properties are the same, and the scale is theirs if the control is shown. */
  predicate SameProperties(c: Control, c': Control) {
    && c'.low == c.low && c'.high == c.high && c'.step == c.step && c'.value == c.value
    && (ValidControl(c) ==> ValidControl(c')) && (InStep(c) ==> InStep(c'))
  }

  lemma RefusalKeepsAgreement(s: System)
    requires Valid(s) && Agreement(s) && Enabled(s, WorkerSet(false))
    ensures Agreement(Next(s, WorkerSet(false)))
  {
    var s' := Next(s, WorkerSet(false));
    forall i | 0 <= i < |s'.sliders| ensures SliderInvariant(s'.sliders[i], AskOf(s'.history, i), s') {
      assert SliderInvariant(s.sliders[i], AskOf(s.history, i), s);
    }
  }

  /** What dropping the head of the queue leaves behind. */
  lemma HeadGone(m: Message, rest: seq<Message>)
    ensures LastChanged([m] + rest) == if LastChanged(rest).Some? then LastChanged(rest) else LastChanged([m])
    ensures LastChanged([m]) == if m.Changed? && m.id == BRIGHTNESS then Some(m.value) else None
    ensures Rescue([m] + rest) <==> (m.RangeChanged? && LastChanged(rest).Some?) || Rescue(rest)
  {
    LastChangedOfSum([m], rest);
    LastChangedOfOne(m);
    assert ([m] + rest)[1..] == rest;
  }

  /** A slider and the queue it sees when the worker handles a request, */
  lemma RequestKeepsSlider(c: Control, ask: Option<real>, s: System, requested: real, rest: seq<Message>)
    requires Valid(s) && s.worker.Idle? && s.queue == [ChangeRequested(requested)] + rest
    requires SliderInvariant(c, ask, s)
    ensures SliderInvariant(c, ask, Delivered(s.(queue := rest), ChangeRequested(requested)))
  {
    HeadGone(ChangeRequested(requested), rest);
  }

  /** an announcement, */
  lemma ChangedKeepsSlider(c: Control, ask: Option<real>, s: System, id: Uint32, value: int, rest: seq<Message>)
    requires Valid(s) && s.worker.Idle? && s.queue == [Changed(id, value)] + rest
    requires SliderInvariant(c, ask, s)
    requires LastChanged(s.queue).Some? ==> LastChanged(s.queue) == s.history.announced
    ensures SliderInvariant(if id == BRIGHTNESS then ValueArrived(c, value as real) else c,
                            if id == BRIGHTNESS then None else ask,
                            Delivered(s.(queue := rest), Changed(id, value)))
  {
    HeadGone(Changed(id, value), rest);
  }

  /** the range, */
  lemma RangeKeepsSlider(c: Control, ask: Option<real>, s: System, rest: seq<Message>)
    requires Valid(s) && s.worker.Idle? && s.queue == [RangeChanged] + rest && SliderInvariant(c, ask, s)
    ensures SliderInvariant(RangeArrived(c, BRIGHTNESS_MIN, BRIGHTNESS_MAX, BRIGHTNESS_STEP), ask,
                            Delivered(s.(queue := rest), RangeChanged))
  {
    HeadGone(RangeChanged, rest);
  }

  /** a request to persist, */
  lemma PersistKeepsSlider(c: Control, ask: Option<real>, s: System, id: Uint32, rest: seq<Message>)
    requires Valid(s) && s.worker.Idle? && s.queue == [PersistRequested(id)] + rest && SliderInvariant(c, ask, s)
    ensures SliderInvariant(c, ask, Delivered(s.(queue := rest), PersistRequested(id)))
  {
    HeadGone(PersistRequested(id), rest);
  }

  /** or a request for the state. */
  lemma StateRequestKeepsSlider(c: Control, ask: Option<real>, s: System, rest: seq<Message>)
    requires Valid(s) && s.worker.Idle? && s.queue == [StateRequested] + rest && SliderInvariant(c, ask, s)
    ensures SliderInvariant(c, ask, Delivered(s.(queue := rest), StateRequested))
  {
    var s' := Delivered(s.(queue := rest), StateRequested);
    assert s'.queue[|s'.queue| - 1] == RangeChanged;
  }

  lemma DeliveryKeepsSlider(s: System, i: nat)
    requires Valid(s) && Enabled(s, Deliver) && Agreement(s) && i < |s.sliders|
    ensures
      var s' := Next(s, Deliver);
      |s'.sliders| == |s.sliders| && SliderInvariant(s'.sliders[i], AskOf(s'.history, i), s')
  {
    var c, ask, rest := s.sliders[i], AskOf(s.history, i), s.queue[1..];
    assert s.queue == [s.queue[0]] + rest;
    assert SliderInvariant(c, ask, s);
    match s.queue[0]
    case ChangeRequested(requested) => RequestKeepsSlider(c, ask, s, requested, rest);
    case Changed(id, value) => ChangedKeepsSlider(c, ask, s, id, value, rest);
    case RangeChanged => RangeKeepsSlider(c, ask, s, rest);
    case StateRequested => StateRequestKeepsSlider(c, ask, s, rest);
    case PersistRequested(id) => PersistKeepsSlider(c, ask, s, id, rest);
  }

  lemma DeliveryKeepsAgreement(s: System)
    requires Valid(s) && Enabled(s, Deliver) && Agreement(s)
    ensures Agreement(Next(s, Deliver))
  {
    var s' := Next(s, Deliver);
    var m, rest := s.queue[0], s.queue[1..];
    assert s.queue == [m] + rest;
    HeadGone(m, rest);
    if m.StateRequested? {
      LastChangedOfSum(rest, [RangeChanged]);
      LastChangedOfOne(RangeChanged);
    }
    forall i | 0 <= i < |s'.sliders| ensures SliderInvariant(s'.sliders[i], AskOf(s'.history, i), s') {
      DeliveryKeepsSlider(s, i);
    }
  }

  lemma DragKeepsAgreement(s: System, i: nat, k: int)
    requires Valid(s) && Enabled(s, Drag(i, k)) && Agreement(s)
    ensures Agreement(Next(s, Drag(i, k)))
  {
    var s' := Next(s, Drag(i, k));
    var (c', asked) := Dragged(s.sliders[i], k);
    if asked.None? {
      ElsewhereKeepsAgreement(s, s');
    } else {
      var more := [ChangeRequested(asked.value)];
      LastChangedOfOne(more[0]);
      LastChangedOfSum(s.queue, more);
      forall j | 0 <= j < |s'.sliders| ensures SliderInvariant(s'.sliders[j], AskOf(s'.history, j), s') {
        if j == i {
          DraggedWillAgree(s.sliders[i], AskOf(s.history, i), s, k);
        } else {
          SendingKeepsSlider(s.sliders[j], AskOf(s.history, j), s, more);
        }
      }
    }
  }

  /** A drag stores what it asks for, and the owner will take that or the slider will be told. */
  lemma DraggedWillAgree(c: Control, ask: Option<real>, s: System, k: int)
    requires SliderInvariant(c, ask, s) && c.active && 0 <= k <= c.scale.count && Dragged(c, k).1.Some?
    ensures SliderInvariant(Dragged(c, k).0, Dragged(c, k).1, Send(s, [ChangeRequested(Dragged(c, k).1.value)]))
  {
    var asked := ChangeRequested(Dragged(c, k).1.value);
    LastChangedOfOne(asked);
    SendingKeepsSlider(c, ask, s, [asked]);
    assert asked in s.queue + [asked];
    if HasPublishedRange(c) {
      PublishedRangeIsKept(k);
    } else if Rescue(s.queue) {
      RescueAnnounces(s.queue);
      LastChangedOfSum(s.queue, [asked]);
    }
  }

  lemma AddingKeepsAgreement(s: System, control: Control)
    requires Valid(s) && Enabled(s, AddSlider(control)) && Agreement(s)
    ensures Agreement(Next(s, AddSlider(control)))
  {
    var s' := Next(s, AddSlider(control));
    LastChangedOfOne(StateRequested);
    SendingKeepsAgreement(s, [StateRequested]);
    assert StateRequested in s'.queue;
    forall i | 0 <= i < |s'.sliders| ensures SliderInvariant(s'.sliders[i], AskOf(s'.history, i), s') {
      if i < |s.sliders| {
        SendingKeepsSlider(s.sliders[i], AskOf(s.history, i), s, [StateRequested]);
      }
    }
  }

  lemma StepKeepsAgreement(s: System, step: Step)
    requires Valid(s) && Enabled(s, step) && Agreement(s)
    ensures Agreement(Next(s, step))
  {
    var s' := Next(s, step);
    match step
    case Deliver => DeliveryKeepsAgreement(s);
    case WorkerSet(accepts) => if accepts { ComingKeepsAgreement(s, s'); } else { RefusalKeepsAgreement(s); }
    case WorkerSend => AnnouncementKeepsAgreement(s, s.(worker := Idle), s.worker.value);
    case PusherSend => AnnouncementKeepsAgreement(s, s.(pusher := Idle), s.pusher.value);
    case Drag(i, k) => DragKeepsAgreement(s, i, k);
    case AddSlider(control) => AddingKeepsAgreement(s, control);
    case _ => OtherStepKeepsAgreement(s, step);
  }

  lemma OtherStepKeepsAgreement(s: System, step: Step)
    requires Valid(s) && Enabled(s, step) && Agreement(s)
    requires !step.Deliver? && !step.WorkerSet? && !step.WorkerSend? && !step.PusherSend?
    requires !step.Drag? && !step.AddSlider?
    ensures Agreement(Next(s, step))
  {
    var s' := Next(s, step);
    match step
    case WorkerRead => ComingKeepsAgreement(s, s');
    case PusherTake => StillComing(s, s');
    case PusherSet => ComingKeepsAgreement(s, s');
    case PusherRead => ComingKeepsAgreement(s, s');
    case Supply(_) => StillComing(s, s');
    case PublishNext =>
      var m := PersistRequested(s.keeper.publishing[0]);
      LastChangedOfOne(m);
      ElsewhereKeepsAgreement(s, s.(keeper := s'.keeper));
      SendingKeepsAgreement(s.(keeper := s'.keeper), [m]);
    case Ask(requested) =>
      LastChangedOfOne(ChangeRequested(requested));
      SendingKeepsAgreement(s, [ChangeRequested(requested)]);
    case OtherChanged(id, value) =>
      LastChangedOfOne(Changed(id, value));
      SendingKeepsAgreement(s, [Changed(id, value)]);
    case _ => ElsewhereKeepsAgreement(s, s');
  }

  /** A pushed configuration is stored or looked at; the brightness in use is as it was. */
  lemma StillComing(s: System, s': System)
    requires Agreement(s) && s'.queue == s.queue && s'.sliders == s.sliders && s'.history == s.history && Coming(s')
    requires s'.owner.current == s.owner.current && s'.worker == s.worker && !Announces(s.pusher)
    ensures Agreement(s')
  {
    forall i | 0 <= i < |s'.sliders| ensures SliderInvariant(s'.sliders[i], AskOf(s'.history, i), s') {
      assert SliderInvariant(s.sliders[i], AskOf(s.history, i), s);
    }
  }

  lemma BootAgrees(s: System)
    requires Booted(s)
    ensures Agreement(s)
  {
    LastChangedOfOne(StateRequested);
    assert StateRequested in s.queue;
  }

  lemma {:induction false} RunKeepsAgreement(s: System, steps: seq<Step>)
    requires Valid(s) && Possible(s, steps) && Agreement(s)
    ensures Agreement(Run(s, steps))
    decreases |steps|
  {
    if steps != [] {
      NextIsValid(s, steps[0]);
      StepKeepsAgreement(s, steps[0]);
      RunKeepsAgreement(Next(s, steps[0]), steps[1..]);
    }
  }

  /** No message is queued and no thread of the owner is in the middle of anything. */
  predicate Drained(s: System) {
    s.queue == [] && s.worker.Idle? && s.pusher.Idle?
  }

  /**
   Whatever the sliders were configured with, whatever is dragged, asked for, pushed, refused or added,
   and however the steps interleave: once the system has drained, every slider has the owner's range and
   stores what it asked for since an announcement last reached it, or else the last announced value.
   */
  lemma SlidersHoldTheFact(s: System, steps: seq<Step>, i: nat)
    requires Booted(s) && Possible(s, steps)
    requires Drained(Run(s, steps)) && i < |Run(s, steps).sliders|
    ensures
      var r := Run(s, steps);
      && Agreement(r) && HasPublishedRange(r.sliders[i]) && HoldsFact(r.sliders[i], AskOf(r.history, i), r)
  {
    BootAgrees(s);
    RunKeepsAgreement(s, steps);
    var r := Run(s, steps);
    assert SliderInvariant(r.sliders[i], AskOf(r.history, i), r);
  }

  /**
   The last the slider heard was right: what it asked for was not refused, or, if it has asked for
   nothing since, the last announcement was not late.
   */
  predicate HeardRight(h: History, i: nat) {
    match AskOf(h, i)
    case Some(asked) => Accepted(asked) !in h.refused
    case None => !h.late
  }

  /**
   So a slider stores the brightness in use if and only if it was last told so: by an announcement that was
   not late, with nothing else set between the reading and the queueing of its value, or by its own drag,
   if the panel did not refuse it.
   */
  lemma SliderConvergesIff(s: System, steps: seq<Step>, i: nat)
    requires Booted(s) && Possible(s, steps)
    requires Drained(Run(s, steps)) && i < |Run(s, steps).sliders|
    ensures
      var r := Run(s, steps);
      r.sliders[i].value == r.owner.current as real <==> HeardRight(r.history, i)
  {
    SlidersHoldTheFact(s, steps, i);
  }

  /** Where the last announcement was not late and nothing was refused since, every slider does. */
  lemma SlidersConverge(s: System, steps: seq<Step>, i: nat)
    requires Booted(s) && Possible(s, steps)
    requires Drained(Run(s, steps)) && i < |Run(s, steps).sliders|
    requires !Run(s, steps).history.late && Run(s, steps).history.refused == {}
    ensures Run(s, steps).sliders[i].value == Run(s, steps).owner.current as real
    ensures HasPublishedRange(Run(s, steps).sliders[i])
  {
    SlidersHoldTheFact(s, steps, i);
    SliderConvergesIff(s, steps, i);
  }

  // ---------------------------------------------------------------- when nothing is late

  /** The brightness is not set while the other thread has read it and not yet queued what it read. */
  predicate Orderly(s: System, steps: seq<Step>)
    requires Valid(s) && Possible(s, steps)
    decreases |steps|
  {
    steps == [] ||
    (&& (steps[0].WorkerSet? ==> !s.pusher.Sending?)
     && (steps[0].PusherSet? ==> !s.worker.Sending?)
     && (NextIsValid(s, steps[0]);
         Orderly(Next(s, steps[0]), steps[1..])))
  }

  /** What a thread is about to announce is what is in use. */
  predicate InHand(w: Work, current: int) {
    w.Sending? ==> w.value == current
  }

  predicate UpToDate(s: System) {
    InHand(s.worker, s.owner.current) && InHand(s.pusher, s.owner.current) && !s.history.late
  }

  /** In a run without such a setting no announcement is ever late. */
  lemma {:induction false} OrderlyIsNeverLate(s: System, steps: seq<Step>)
    requires Valid(s) && Possible(s, steps) && Orderly(s, steps) && UpToDate(s)
    ensures UpToDate(Run(s, steps))
    decreases |steps|
  {
    if steps != [] {
      NextIsValid(s, steps[0]);
      OrderlyIsNeverLate(Next(s, steps[0]), steps[1..]);
    }
  }

  /** Without pushed configurations every run is like that. */
  lemma {:induction false} UnpushedIsOrderly(s: System, steps: seq<Step>)
    requires Valid(s) && Possible(s, steps) && s.pusher.Idle?
    requires forall i :: 0 <= i < |steps| ==> !steps[i].Supply?
    ensures Orderly(s, steps)
    decreases |steps|
  {
    if steps != [] {
      NextIsValid(s, steps[0]);
      UnpushedIsOrderly(Next(s, steps[0]), steps[1..]);
    }
  }

  // ---------------------------------------------------------------- the knob

  /** A range of at least half a step, for which every knob position is read back as itself. */
  predicate Wide(c: Scale)
    requires ValidScale(c)
  {
    (c.max - c.min) / c.step >= 0.5
  }

  /** A slider on screen that nobody is touching shows its stored value. */
  predicate KnobShowsValue(c: Control) {
    ValidControl(c) && InStep(c)
    && (c.active && !c.pressed && Wide(c.scale) ==> c.knob == ToIndex(c.scale, c.value))
  }

  lemma DragShowsValue(c: Control, k: int)
    requires KnobShowsValue(c) && c.active && 0 <= k <= c.scale.count
    ensures KnobShowsValue(Dragged(c, k).0)
  {
    ScaleIsDerived(c.low, c.high, c.step);
    if Wide(c.scale) {
      KnobRoundTripsIff(c.scale);
      assert ToIndex(c.scale, ToValue(c.scale, k)) == k;
      if c.scale.max <= c.scale.min {
        QuotientOfZero(c.scale.max - c.scale.min, c.scale.step);
      }
    }
  }

  lemma QuotientOfZero(x: real, step: real)
    requires step > 0.0 && x <= 0.0
    ensures x / step < 0.5
  {
  }

  ghost predicate KnobsShowValues(sliders: seq<Control>) {
    forall i :: 0 <= i < |sliders| ==> KnobShowsValue(sliders[i])
  }

  lemma StepShowsValues(s: System, step: Step)
    requires Valid(s) && Enabled(s, step) && KnobsShowValues(s.sliders)
    ensures KnobsShowValues(Next(s, step).sliders)
  {
    match step
    case Deliver => DeliveryShowsValues(s);
    case Drag(i, k) => DragShowsValue(s.sliders[i], k);
    case Release(i) => assert KnobShowsValue(Released(s.sliders[i]));
    case ShowSlider(i) => assert KnobShowsValue(Shown(s.sliders[i]));
    case _ =>
  }

  lemma DeliveryShowsValues(s: System)
    requires Valid(s) && Enabled(s, Deliver) && KnobsShowValues(s.sliders)
    ensures KnobsShowValues(Next(s, Deliver).sliders)
  {
    var s' := Next(s, Deliver);
    match s.queue[0]
    case Changed(id, value) =>
      forall i | 0 <= i < |s.sliders| ensures KnobShowsValue(s'.sliders[i]) {
        ValueShowsValue(s.sliders[i], value as real);
      }
    case RangeChanged =>
      forall i | 0 <= i < |s.sliders| ensures KnobShowsValue(s'.sliders[i]) {
        RangeShowsValue(s.sliders[i]);
      }
    case _ =>
  }

  lemma ValueShowsValue(c: Control, value: real)
    requires KnobShowsValue(c)
    ensures KnobShowsValue(ValueArrived(c, value))
  {
  }

  lemma RangeShowsValue(c: Control)
    requires KnobShowsValue(c)
    ensures KnobShowsValue(RangeArrived(c, BRIGHTNESS_MIN, BRIGHTNESS_MAX, BRIGHTNESS_STEP))
  {
  }

  lemma {:induction false} RunShowsValues(s: System, steps: seq<Step>)
    requires Valid(s) && Possible(s, steps) && KnobsShowValues(s.sliders)
    ensures KnobsShowValues(Run(s, steps).sliders)
    decreases |steps|
  {
    if steps != [] {
      StepShowsValues(s, steps[0]);
      RunShowsValues(Next(s, steps[0]), steps[1..]);
    }
  }

  /**
   Once the system has drained, the knob of every slider on screen that nobody touches stands at the
   value it stores, and so at the brightness in use where the slider has converged.
   */
  lemma KnobsConverge(s: System, steps: seq<Step>, i: nat)
    requires Booted(s) && Possible(s, steps)
    requires Drained(Run(s, steps)) && i < |Run(s, steps).sliders|
    requires Run(s, steps).sliders[i].active && !Run(s, steps).sliders[i].pressed
    ensures Run(s, steps).sliders[i].knob == ToIndex(PublishedScale, Run(s, steps).sliders[i].value)
    ensures HeardRight(Run(s, steps).history, i) ==>
              Run(s, steps).sliders[i].knob == ToIndex(PublishedScale, Run(s, steps).owner.current as real)
  {
    var r := Run(s, steps);
    SlidersHoldTheFact(s, steps, i);
    SliderConvergesIff(s, steps, i);
    RunShowsValues(s, steps);
    assert KnobShowsValue(r.sliders[i]);
    assert SliderInvariant(r.sliders[i], AskOf(r.history, i), r);
    PublishedRangeIsKept(0);
  }

  // ---------------------------------------------------------------- coming to rest

  /** From every state the system, left alone, comes to rest within `Measure` steps of its own. */
  lemma {:induction false} ComesToRest(s: System) returns (more: seq<Step>)
    requires Valid(s)
    ensures forall i :: 0 <= i < |more| ==> Own(more[i])
    ensures |more| <= Measure(s)
    ensures Possible(s, more) && Quiet(Run(s, more))
    decreases Measure(s)
  {
    if Quiet(s) {
      more := [];
    } else {
      var step := OwnStep(s);
      OwnStepDecreases(s, step);
      NextIsValid(s, step);
      var rest := ComesToRest(Next(s, step));
      more := [step] + rest;
      assert more[1..] == rest;
    }
  }

  /** At rest flash holds the brightness in use, whatever was pushed, late or refused. */
  lemma FlashConverges(s: System, steps: seq<Step>)
    requires Booted(s) && Possible(s, steps) && Quiet(Run(s, steps))
    ensures Run(s, steps).owner.stored == Run(s, steps).owner.current
  {
    RunLosesNothing(s, steps);
  }

  /** Flash holds the brightness in use, and so does every slider. */
  predicate EverythingAgrees(s: System) {
    && s.owner.stored == s.owner.current
    && (forall i :: 0 <= i < |s.sliders| ==> s.sliders[i].value == s.owner.stored as real)
  }

  /** At rest everything agrees if and only if the last that each slider heard was right. */
  lemma EverythingAgreesIff(s: System, steps: seq<Step>)
    requires Booted(s) && Possible(s, steps) && Quiet(Run(s, steps))
    ensures
      var r := Run(s, steps);
      EverythingAgrees(r) <==> forall i :: 0 <= i < |r.sliders| ==> HeardRight(r.history, i)
  {
    FlashConverges(s, steps);
    var r := Run(s, steps);
    forall i | 0 <= i < |r.sliders|
      ensures r.sliders[i].value == r.owner.current as real <==> HeardRight(r.history, i)
    {
      SliderConvergesIff(s, steps, i);
    }
  }

  lemma {:induction false} AcceptingIsNotRefused(s: System, steps: seq<Step>)
    requires Valid(s) && Possible(s, steps) && s.history.refused == {}
    requires WorkerSet(false) !in steps
    ensures Run(s, steps).history.refused == {}
    decreases |steps|
  {
    if steps != [] {
      NextIsValid(s, steps[0]);
      AcceptingIsNotRefused(Next(s, steps[0]), steps[1..]);
    }
  }

  /**
   After any orderly run on a panel that accepts, every way to go on until rest ends with flash and every
   slider holding the brightness in use; and by `ComesToRest` there is one.
   */
  lemma LeftAloneEverythingAgrees(s: System, steps: seq<Step>)
    requires Booted(s) && Possible(s, steps) && Orderly(s, steps) && WorkerSet(false) !in steps
    requires Quiet(Run(s, steps))
    ensures EverythingAgrees(Run(s, steps))
  {
    FlashConverges(s, steps);
    OrderlyIsNeverLate(s, steps);
    AcceptingIsNotRefused(s, steps);
    forall i | 0 <= i < |Run(s, steps).sliders|
      ensures Run(s, steps).sliders[i].value == Run(s, steps).owner.current as real
    {
      SlidersConverge(s, steps, i);
    }
  }

  // ---------------------------------------------------------------- runs that go wrong

  lemma FirstOf(s: System, step: Step, rest: seq<Step>)
    requires Valid(s) && Enabled(s, step) && Valid(Next(s, step)) && Possible(Next(s, step), rest)
    ensures Possible(s, [step] + rest) && Run(s, [step] + rest) == Run(Next(s, step), rest)
  {
    assert ([step] + rest)[1..] == rest;
  }

  lemma TwoOf(s: System, a: Step, b: Step, rest: seq<Step>)
    requires Valid(s) && Enabled(s, a) && Valid(Next(s, a)) && Enabled(Next(s, a), b) && Valid(Next(Next(s, a), b))
    requires Possible(Next(Next(s, a), b), rest)
    ensures Possible(s, [a, b] + rest) && Run(s, [a, b] + rest) == Run(Next(Next(s, a), b), rest)
  {
    FirstOf(Next(s, a), b, rest);
    FirstOf(s, a, [b] + rest);
    assert [a] + ([b] + rest) == [a, b] + rest;
  }

  /** One announcement at the head of the queue reaches every slider. */
  lemma OneAnnouncement(s: System, value: int, rest: seq<Message>) returns (s': System)
    requires Valid(s) && s.worker.Idle? && !s.keeper.arming && s.queue == [Changed(BRIGHTNESS, value)] + rest
    ensures Enabled(s, Deliver) && Valid(Next(s, Deliver)) && Enabled(Next(s, Deliver), Rearm)
    ensures s' == Next(Next(s, Deliver), Rearm) && Valid(s') && !s'.keeper.arming
    ensures s'.queue == rest && s'.worker.Idle? && s'.pusher == s.pusher && s'.owner == s.owner
    ensures |s'.sliders| == |s.sliders|
    ensures forall i :: 0 <= i < |s.sliders| ==> s'.sliders[i].value == value as real
  {
    assert s.queue[1..] == rest;
    NextIsValid(s, Deliver);
    s' := Next(Next(s, Deliver), Rearm);
    NextIsValid(Next(s, Deliver), Rearm);
  }

  /** Two announcements behind a range: the sliders keep the second. */
  lemma SecondAnnouncementStays(s: System, first: int, second: int) returns (steps: seq<Step>)
    requires Valid(s) && s.worker.Idle? && s.pusher.Idle? && !s.keeper.arming
    requires s.queue == [RangeChanged, Changed(BRIGHTNESS, first), Changed(BRIGHTNESS, second)]
    ensures Possible(s, steps) && Drained(Run(s, steps)) && Run(s, steps).owner == s.owner
    ensures |Run(s, steps).sliders| == |s.sliders|
    ensures forall i :: 0 <= i < |s.sliders| ==> Run(s, steps).sliders[i].value == second as real
  {
    var s1 := Next(s, Deliver);
    NextIsValid(s, Deliver);
    assert s1.queue == [Changed(BRIGHTNESS, first)] + [Changed(BRIGHTNESS, second)];
    var s2 := OneAnnouncement(s1, first, [Changed(BRIGHTNESS, second)]);
    assert s2.queue == [Changed(BRIGHTNESS, second)] + [];
    var s3 := OneAnnouncement(s2, second, []);
    TwoOf(s2, Deliver, Rearm, []);
    TwoOf(s1, Deliver, Rearm, [Deliver, Rearm] + []);
    FirstOf(s, Deliver, [Deliver, Rearm] + ([Deliver, Rearm] + []));
    steps := [Deliver] + ([Deliver, Rearm] + ([Deliver, Rearm] + []));
  }

  /** The pushed value is in use and announced, and then the worker queues the value it read before. */
  lemma PushOvertakes(s: System, value: int) returns (s': System, steps: seq<Step>)
    requires Valid(s) && s.worker.Sending? && s.pusher.Idle? && !s.keeper.arming && s.queue == [RangeChanged]
    ensures Possible(s, steps) && s' == Run(s, steps) && s'.sliders == s.sliders && s'.keeper == s.keeper
    ensures s'.worker.Idle? && s'.pusher.Idle? && s'.owner.current == value
    ensures s'.queue == [RangeChanged, Changed(BRIGHTNESS, value), Changed(BRIGHTNESS, s.worker.value)]
  {
    var s1 := Next(s, Supply(value));
    var s2 := Next(s1, PusherTake);
    var s3 := Next(s2, PusherSet);
    var s4 := Next(s3, PusherRead);
    var s5 := Next(s4, PusherSend);
    s' := Next(s5, WorkerSend);
    TwoOf(s4, PusherSend, WorkerSend, []);
    TwoOf(s2, PusherSet, PusherRead, [PusherSend, WorkerSend] + []);
    TwoOf(s, Supply(value), PusherTake, [PusherSet, PusherRead] + ([PusherSend, WorkerSend] + []));
    steps := [Supply(value), PusherTake] + ([PusherSet, PusherRead] + ([PusherSend, WorkerSend] + []));
  }

  /**
   A configuration pushed between the worker's reading and its queueing: the announcement of the old
   value comes last, the system drains, and every slider is left with a brightness that is not in use.
   */
  lemma PushStrandsSliders(s: System, value: int) returns (steps: seq<Step>)
    requires Booted(s) && s.sliders != [] && value != s.owner.current
    ensures Possible(s, steps) && Drained(Run(s, steps)) && Run(s, steps).owner.current == value
    ensures |Run(s, steps).sliders| == |s.sliders|
    ensures forall i :: 0 <= i < |s.sliders| ==> Run(s, steps).sliders[i].value == s.owner.current as real
  {
    var s1 := Next(s, Deliver);
    var s2 := Next(s1, WorkerRead);
    assert s2.queue == [RangeChanged];
    var s3, overtaking := PushOvertakes(s2, value);
    var last := SecondAnnouncementStays(s3, value, s.owner.current);
    OneAfterTheOther(s2, overtaking, last);
    TwoOf(s, Deliver, WorkerRead, overtaking + last);
    steps := [Deliver, WorkerRead] + (overtaking + last);
  }

  lemma {:induction false} OneAfterTheOther(s: System, a: seq<Step>, b: seq<Step>)
    requires Valid(s) && Possible(s, a) && Possible(Run(s, a), b)
    ensures Possible(s, a + b) && Run(s, a + b) == Run(Run(s, a), b)
    decreases |a|
  {
    if a == [] {
      assert a + b == b;
    } else {
      NextIsValid(s, a[0]);
      OneAfterTheOther(Next(s, a[0]), a[1..], b);
      FirstOf(s, a[0], a[1..] + b);
      assert a + b == [a[0]] + (a[1..] + b);
    }
  }

  /** A request the panel refuses: nothing is announced, and the slider keeps what it asked for. */
  lemma RefusalStrandsSlider(s: System, i: nat, k: int)
    requires Valid(s) && Drained(s) && !s.keeper.arming
    requires i < |s.sliders| && s.sliders[i].active && s.sliders[i].scale == PublishedScale
    requires 0 <= k <= PublishedScale.count && 10 + 5 * k != s.owner.current
    ensures
      var steps := [Drag(i, k), Deliver, WorkerSet(false)];
      Possible(s, steps) && Drained(Run(s, steps)) && Run(s, steps).owner == s.owner
      && |Run(s, steps).sliders| == |s.sliders| && Run(s, steps).sliders[i].value == (10 + 5 * k) as real
  {
    PublishedRangeIsKept(k);
    var s1 := Next(s, Drag(i, k));
    NextIsValid(s, Drag(i, k));
    assert s1.queue == [ChangeRequested(ToValue(PublishedScale, k))];
    var s2 := Next(s1, Deliver);
    NextIsValid(s1, Deliver);
    NextIsValid(s2, WorkerSet(false));
    TwoOf(s1, Deliver, WorkerSet(false), []);
    FirstOf(s, Drag(i, k), [Deliver, WorkerSet(false)] + []);
    assert [Drag(i, k)] + ([Deliver, WorkerSet(false)] + []) == [Drag(i, k), Deliver, WorkerSet(false)];
  }

  // ---------------------------------------------------------------- handlers that nothing comes between

  /** The pieces of a request, taken in a row, are the request handled at once. */
  lemma RequestAtOnce(s: System, requested: real, rest: seq<Message>, accepts: bool)
    requires Valid(s) && Enabled(s, Deliver) && s.queue == [ChangeRequested(requested)] + rest
    ensures
      var (o, messages) := OwnerAsked(s.owner, requested, accepts);
      var s1 := Next(s, Deliver);
      if Accepted(requested) == s.owner.current then
        s1.owner == o && s1.queue == rest + messages && s1.worker.Idle?
      else
        Valid(s1) && Enabled(s1, WorkerSet(accepts)) &&
        var s2 := Next(s1, WorkerSet(accepts));
        if !accepts then s2.owner == o && s2.queue == rest + messages && s2.worker.Idle?
        else
          Valid(s2) && Enabled(s2, WorkerRead) &&
          var s3 := Next(s2, WorkerRead);
          Valid(s3) && Enabled(s3, WorkerSend) && Next(s3, WorkerSend).owner == o
          && Next(s3, WorkerSend).queue == rest + messages && Next(s3, WorkerSend).worker.Idle?
  {
    assert s.queue[1..] == rest;
    NextIsValid(s, Deliver);
    assert rest + [] == rest;
  }

  /** So are the pieces of the answer to a state request, */
  lemma StateAtOnce(s: System, rest: seq<Message>)
    requires Valid(s) && Enabled(s, Deliver) && s.queue == [StateRequested] + rest
    ensures
      var s1 := Next(s, Deliver);
      Valid(s1) && Enabled(s1, WorkerRead) &&
      var s2 := Next(s1, WorkerRead);
      Valid(s2) && Enabled(s2, WorkerSend) && Next(s2, WorkerSend).queue == rest + OwnerState(s.owner)
      && Next(s2, WorkerSend).owner == s.owner
  {
    assert s.queue[1..] == rest;
    assert rest + [RangeChanged] + [Changed(BRIGHTNESS, s.owner.current)] == rest + OwnerState(s.owner);
  }

  /** and those of a reload. */
  lemma ReloadAtOnce(s: System)
    requires Valid(s) && s.pusher.Supplied?
    ensures
      var (o, messages) := Reloaded(s.owner);
      var s1 := Next(s, PusherTake);
      Valid(s1) && Enabled(s1, PusherSet) &&
      var s2 := Next(s1, PusherSet);
      Valid(s2) && Enabled(s2, PusherRead) &&
      var s3 := Next(s2, PusherRead);
      Valid(s3) && Enabled(s3, PusherSend) && Next(s3, PusherSend).owner == o
      && Next(s3, PusherSend).queue == s.queue + messages
  {
  }

  // ---------------------------------------------------------------- the objects themselves

  class SettingsChannel {
    var queue: seq<Message>

    constructor ()
      ensures queue == []
    {
      queue := [];
    }

    method PublishAsync(m: Message)
      modifies this
      ensures queue == old(queue) + [m]
    {
      queue := queue + [m];
    }
  }

  datatype DisplayConfiguration = DisplayConfiguration(brightness: int, blankingEnabled: bool)

  datatype DriverCall = SetLevel(value: int) | SetBlanking(enabled: bool)

  /** DisplayService; whether the panel accepts a brightness is an input, and `driver` is what it was asked to do. */
  class DisplayService {
    const channel: SettingsChannel
    var configuration: DisplayConfiguration
    var stored: DisplayConfiguration
    var hasStored: bool
    var writeScheduled: bool
    var writeInProgress: Option<DisplayConfiguration>
    var driver: seq<DriverCall>

    ghost function State(): Owner
      reads this
    {
      var writing := match writeInProgress case Some(c) => Some(c.brightness) case None => None;
      Owner(configuration.brightness, stored.brightness, writeScheduled, writing)
    }

    constructor (channel: SettingsChannel, stored: DisplayConfiguration)
      ensures this.channel == channel && State() == Owner(stored.brightness, stored.brightness, false, None)
      ensures hasStored && this.stored == configuration == stored
      ensures driver == [SetBlanking(stored.blankingEnabled), SetLevel(stored.brightness)]
    {
      this.channel := channel;
      configuration, this.stored, hasStored := stored, stored, true;
      writeScheduled, writeInProgress := false, None;
      driver := [SetBlanking(stored.blankingEnabled), SetLevel(stored.brightness)];
    }

    method OnBrightnessChangeRequested(requested: real, accepts: bool)
      modifies this, channel
      ensures
        var (o, messages) := OwnerAsked(old(State()), requested, accepts);
        State() == o && channel.queue == old(channel.queue) + messages
      ensures configuration == old(configuration).(brightness := configuration.brightness)
      ensures accepts ==> Nearest(configuration.brightness, requested)
    {
      AcceptedIsNearest(requested);
      var clamped := Lround(Clamp(requested, BRIGHTNESS_MIN, BRIGHTNESS_MAX));
      if clamped == configuration.brightness {
        return;
      }
      var status := SetBrightness(clamped, accepts);
      if status != Success {
        return;
      }
      PublishBrightnessValue();
    }

    /** A brightness the panel refuses is not taken over. */
    method SetBrightness(value: int, accepts: bool) returns (status: Status)
      modifies this
      ensures status == Success <==> accepts
      ensures State() == if accepts then old(State()).(current := value) else old(State())
      ensures configuration.blankingEnabled == old(configuration.blankingEnabled)
      ensures driver == old(driver) + [SetLevel(value)]
    {
      driver := driver + [SetLevel(value)];
      if !accepts {
        return IoError;
      }
      configuration := configuration.(brightness := value);
      status := Success;
    }

    method OnStateRequested()
      modifies channel
      ensures channel.queue == old(channel.queue) + OwnerState(State())
    {
      channel.PublishAsync(RangeChanged);
      PublishBrightnessValue();
    }

    method PublishBrightnessValue()
      modifies channel
      ensures channel.queue == old(channel.queue) + [Changed(BRIGHTNESS, configuration.brightness)]
    {
      channel.PublishAsync(Changed(BRIGHTNESS, configuration.brightness));
    }

    method Persist()
      modifies this
      ensures State() == PersistScheduled(old(State()))
    {
      writeScheduled := true;
    }

    /** The two halves of WriteConfiguration: the snapshot under the lock, then the flash write. */
    method BeginWrite()
      modifies this
      ensures State() == WriteBegun(old(State())) && writeInProgress == Some(configuration)
    {
      writeScheduled := false;
      writeInProgress := Some(configuration);
    }

    method EndWrite()
      modifies this
      ensures State() == WriteEnded(old(State()))
      ensures old(writeInProgress).Some? ==> hasStored && stored == old(writeInProgress).value
    {
      if writeInProgress.Some? {
        stored, hasStored := writeInProgress.value, true;
        writeInProgress := None;
      }
    }

    /** Without a stored configuration nothing happens; otherwise it is taken into use whatever the panel says. */
    method Reload() returns (status: Status)
      modifies this, channel
      ensures status == if old(hasStored) then Success else NoEntry
      ensures
        var (o, messages) := if old(hasStored) then Reloaded(old(State())) else (old(State()), []);
        State() == o && channel.queue == old(channel.queue) + messages
      ensures configuration == if old(hasStored) then old(stored) else old(configuration)
      ensures driver == old(driver) + if old(hasStored) then [SetBlanking(old(stored).blankingEnabled),
                                                              SetLevel(old(stored).brightness)]
                                      else []
    {
      if !hasStored {
        return NoEntry;
      }
      driver := driver + [SetBlanking(stored.blankingEnabled), SetLevel(stored.brightness)];
      configuration := stored;
      PublishBrightnessValue();
      status := Success;
    }
  }

  class SettingsPersistenceService {
    const channel: SettingsChannel
    var pendingSettingIds: seq<Uint32>
    var isRearming: bool
    var timerArmed: bool
    ghost var publishing: seq<Uint32>

    ghost function State(): Keeper
      reads this
    {
      Keeper(pendingSettingIds, isRearming, timerArmed, publishing)
    }

    constructor (channel: SettingsChannel)
      ensures this.channel == channel && State() == Keeper([], false, false, [])
    {
      this.channel := channel;
      pendingSettingIds, isRearming, timerArmed, publishing := [], false, false, [];
    }

    method OnChanged(id: Uint32)
      modifies this
      ensures State() == Rearmed(Recorded(old(State()), id))
      ensures old(Distinct(pendingSettingIds)) ==> Distinct(pendingSettingIds)
    {
      RecordPending(id);
      RearmTimer();
    }

    method RecordPending(id: Uint32)
      modifies this
      ensures State() == Recorded(old(State()), id)
    {
      var i := 0;
      while i < |pendingSettingIds| && pendingSettingIds[i] != id
        invariant i <= |pendingSettingIds|
        invariant id !in pendingSettingIds[..i]
      {
        i := i + 1;
      }
      if i == |pendingSettingIds| {
        pendingSettingIds := pendingSettingIds + [id];
      }
      isRearming := true;
    }

    method RearmTimer()
      modifies this
      ensures State() == Rearmed(old(State()))
    {
      isRearming := false;
      timerArmed := true;
    }

    /** The timer's work: swap the pending ids out, then publish a request for each in order. */
    method PublishPendingPersistRequests()
      requires publishing == []
      modifies this, channel
      ensures State() == Fired(old(State())).(publishing := [])
      ensures channel.queue == old(channel.queue) + Requests(old(pendingSettingIds))
    {
      timerArmed := false;
      var ids := pendingSettingIds;
      pendingSettingIds := [];
      publishing := ids;
      ghost var start := channel.queue;
      assert start + Requests([]) == start;
      for i := 0 to |ids|
        invariant publishing == ids[i..] && pendingSettingIds == [] && !timerArmed && isRearming == old(isRearming)
        invariant channel.queue == start + Requests(ids[..i])
      {
        RequestsExtend(ids[..i], ids[i]);
        assert ids[..i + 1] == ids[..i] + [ids[i]];
        channel.PublishAsync(PersistRequested(ids[i]));
        publishing := publishing[1..];
      }
      assert ids[..|ids|] == ids;
    }
  }

  function Requests(ids: seq<Uint32>): seq<Message> {
    if ids == [] then [] else [PersistRequested(ids[0])] + Requests(ids[1..])
  }

  lemma {:induction false} RequestsExtend(ids: seq<Uint32>, id: Uint32)
    ensures Requests(ids + [id]) == Requests(ids) + [PersistRequested(id)]
  {
    if ids == [] {
      assert [id][1..] == [];
    } else {
      assert (ids + [id])[1..] == ids[1..] + [id];
      RequestsExtend(ids[1..], id);
    }
  }

  function PublishTimes(s: System, n: nat): (r: System)
    requires Valid(s) && n <= |s.keeper.publishing|
    ensures Valid(r) && r.keeper.publishing == s.keeper.publishing[n..]
  {
    if n == 0 then s else Next(PublishTimes(s, n - 1), PublishNext)
  }

  /** The service's publishing loop is the system's PublishNext taken once for every id. */
  lemma {:induction false} LoopIsPublishNext(s: System, n: nat)
    requires Valid(s) && n <= |s.keeper.publishing|
    ensures PublishTimes(s, n) ==
            Send(s, Requests(s.keeper.publishing[..n])).(
              keeper := s.keeper.(publishing := s.keeper.publishing[n..]))
  {
    var ids := s.keeper.publishing;
    if n == 0 {
      assert s.queue + Requests(ids[..0]) == s.queue;
    } else {
      LoopIsPublishNext(s, n - 1);
      assert ids[..n] == ids[..n - 1] + [ids[n - 1]];
      RequestsExtend(ids[..n - 1], ids[n - 1]);
    }
  }
}
