/** NavigationService: the state it advances optimistically, the events it publishes, its bounded history. */
module Navigation {
  import opened Common

  // Each operation is a function on `Nav`; the class below keeps the same state in place and every method
  // is proved equal to its function.

  const HISTORY_DEPTH := 8

  datatype NavEvent =
    | ShowGroup(group: Uint32)
    | ShowOverlay(screen: Uint32)
    | CloseOverlay(screen: Uint32)

  datatype Intent = NoIntent | NextGroup | PreviousGroup | GoToGroup | Back | OpenOverlay | DismissOverlay

  datatype Nav = Nav(
    groupIds: seq<Uint32>,
    active: Option<Uint32>,
    history: seq<Uint32>,
    overlay: Option<Uint32>)

  /** The state after a call, its return value, and what it published. */
  datatype Outcome = Outcome(nav: Nav, status: Status, events: seq<NavEvent>)

  // ---------------------------------------------------------------- operations as functions

  function Pushed(history: seq<Uint32>, id: Uint32): seq<Uint32> {
    (if |history| >= HISTORY_DEPTH then history[1..] else history) + [id]
  }

  /** The position of the first occurrence of `id`, or the length when there is none. */
  function IndexOf(ids: seq<Uint32>, id: Uint32): (i: nat)
    ensures i <= |ids|
    ensures i < |ids| ==> ids[i] == id
    ensures forall j :: 0 <= j < i ==> ids[j] != id
  {
    if ids == [] then 0 else if ids[0] == id then 0 else 1 + IndexOf(ids[1..], id)
  }

  function Requested(nav: Nav, id: Uint32, record: bool): Outcome {
    if nav.overlay.Some? then Outcome(nav, Busy, [])
    else if id !in nav.groupIds then Outcome(nav, NoEntry, [])
    else if nav.active == Some(id) then Outcome(nav, Success, [])
    else
      var history := if record && nav.active.Some? then Pushed(nav.history, nav.active.value) else nav.history;
      Outcome(nav.(active := Some(id), history := history), Success, [ShowGroup(id)])
  }

  function ActiveIndex(nav: Nav): Option<nat> {
    if nav.active.None? then None
    else
      var i := IndexOf(nav.groupIds, nav.active.value);
      if i == |nav.groupIds| then None else Some(i)
  }

  function RequestNext(nav: Nav): Outcome {
    match ActiveIndex(nav)
    case None => Outcome(nav, NoEntry, [])
    case Some(i) => Requested(nav, nav.groupIds[(i + 1) % |nav.groupIds|], true)
  }

  function RequestPrevious(nav: Nav): Outcome {
    match ActiveIndex(nav)
    case None => Outcome(nav, NoEntry, [])
    case Some(i) => Requested(nav, nav.groupIds[(i + |nav.groupIds| - 1) % |nav.groupIds|], true)
  }

  function RequestBack(nav: Nav): Outcome {
    if nav.history == [] then Outcome(nav, NoEntry, [])
    else
      var top := |nav.history| - 1;
      var o := Requested(nav, nav.history[top], false);
      if o.status == Success then o.(nav := o.nav.(history := nav.history[..top])) else o
  }

  function RequestOverlay(nav: Nav, screen: Uint32): Outcome {
    if nav.overlay.Some? then Outcome(nav, Busy, [])
    else Outcome(nav.(overlay := Some(screen)), Success, [ShowOverlay(screen)])
  }

  function RequestClose(nav: Nav): Outcome {
    match nav.overlay
    case None => Outcome(nav, NoEntry, [])
    case Some(screen) => Outcome(nav.(overlay := None), Success, [CloseOverlay(screen)])
  }

  function Handled(nav: Nav, intent: Intent, argument: Uint32): Outcome {
    match intent
    case NextGroup => RequestNext(nav)
    case PreviousGroup => RequestPrevious(nav)
    case GoToGroup => Requested(nav, argument, true)
    case Back => RequestBack(nav)
    case OpenOverlay => RequestOverlay(nav, argument)
    case DismissOverlay => RequestClose(nav)
    case NoIntent => Outcome(nav, Invalid, [])
  }

  // ---------------------------------------------------------------- the published language

  /**
   What a consumer of the channel may rely on: nothing comes between a ShowOverlay and the
   CloseOverlay of the same screen, and no CloseOverlay comes without its ShowOverlay.
   */
  ghost predicate WellNested(events: seq<NavEvent>) {
    && (forall i :: 0 < i < |events| ==> Follows(events, i))
    && (events != [] ==> !events[0].CloseOverlay?)
  }

  /** An event closes an overlay exactly when the one right before it opened that same overlay. */
  predicate Follows(events: seq<NavEvent>, i: nat)
    requires 0 < i < |events|
  {
    && (events[i - 1].ShowOverlay? ==> events[i] == CloseOverlay(events[i - 1].screen))
    && (events[i].CloseOverlay? ==> events[i - 1] == ShowOverlay(events[i].screen))
  }

  /** The overlay a well-nested sequence leaves open. */
  function Open(events: seq<NavEvent>): Option<Uint32> {
    if events != [] && events[|events| - 1].ShowOverlay? then Some(events[|events| - 1].screen) else None
  }

  /**
   Every call keeps the published sequence well nested and the overlay field equal to what the
   sequence leaves open, so neither can ever get out of step with the other.
   */
  lemma HandledKeepsNesting(nav: Nav, intent: Intent, argument: Uint32, published: seq<NavEvent>)
    requires WellNested(published) && nav.overlay == Open(published)
    ensures
      var o := Handled(nav, intent, argument);
      WellNested(published + o.events) && o.nav.overlay == Open(published + o.events)
  {
    var o := Handled(nav, intent, argument);
    if o.events == [] {
      assert published + o.events == published;
    } else {
      assert o.events == [o.events[0]];
      OneMoreEvent(published, o.events[0]);
    }
  }

  lemma OneMoreEvent(published: seq<NavEvent>, e: NavEvent)
    requires WellNested(published)
    requires e.CloseOverlay? ==> Open(published) == Some(e.screen)
    requires !e.CloseOverlay? ==> Open(published).None?
    ensures WellNested(published + [e])
    ensures Open(published + [e]) == if e.ShowOverlay? then Some(e.screen) else None
  {
    var all := published + [e];
    var n := |published|;
    assert all[n] == e && (n > 0 ==> all[n - 1] == published[n - 1]);
    forall i | 0 < i < |all| ensures Follows(all, i) {
      if i < n {
        assert Follows(published, i) && all[i - 1] == published[i - 1] && all[i] == published[i];
      }
    }
  }

  /** While an overlay is open every group request is refused and changes nothing. */
  lemma OverlayBlocksGroups(nav: Nav, intent: Intent, argument: Uint32)
    requires nav.overlay.Some?
    requires intent in {NextGroup, PreviousGroup, GoToGroup, Back}
    ensures
      var o := Handled(nav, intent, argument);
      o.nav == nav && o.events == [] && o.status in {Busy, NoEntry}
  {
  }

  // ---------------------------------------------------------------- history

  /** The last eight elements, or all of them when there are fewer. */
  function LastEight(s: seq<Uint32>): seq<Uint32> {
    if |s| <= 8 then s else s[|s| - 8..]
  }

  /** Going to the first `n` groups after the start of the path, one after the other. */
  function Visit(nav: Nav, path: seq<Uint32>, n: nat): Nav
    requires n < |path|
  {
    if n == 0 then nav else Handled(Visit(nav, path, n - 1), GoToGroup, path[n]).nav
  }

  function BackTimes(nav: Nav, n: nat): Nav {
    if n == 0 then nav else Handled(BackTimes(nav, n - 1), Back, 0).nav
  }

  /** A walk over configured groups in which every step goes to a different group. */
  predicate Walk(nav: Nav, path: seq<Uint32>) {
    && path != [] && nav.active == Some(path[0]) && nav.overlay.None?
    && (forall i :: 0 <= i < |path| ==> path[i] in nav.groupIds)
    && (forall i :: 0 < i < |path| ==> Moves(path, i))
  }

  predicate Moves(path: seq<Uint32>, i: nat)
    requires 0 < i < |path|
  {
    path[i - 1] != path[i]
  }

  /** The rotating eight-slot array holds exactly the last eight groups that were left. */
  lemma {:induction false} HistoryIsLastEight(nav: Nav, path: seq<Uint32>, n: nat)
    requires Walk(nav, path) && |nav.history| <= HISTORY_DEPTH && n < |path|
    ensures Visit(nav, path, n) == nav.(active := Some(path[n]), history := LastEight(nav.history + path[..n]))
  {
    if n == 0 {
      assert nav.history + path[..0] == nav.history;
    } else {
      HistoryIsLastEight(nav, path, n - 1);
      assert Moves(path, n);
      GoOnce(Visit(nav, path, n - 1), path[n]);
      PushedLastEight(nav.history + path[..n - 1], path[n - 1]);
      assert nav.history + path[..n] == nav.history + path[..n - 1] + [path[n - 1]];
    }
  }

  lemma GoOnce(nav: Nav, to: Uint32)
    requires nav.active.Some? && nav.overlay.None? && to in nav.groupIds && nav.active != Some(to)
    ensures Requested(nav, to, true).nav == nav.(active := Some(to), history := Pushed(nav.history, nav.active.value))
  {
  }

  lemma PushedLastEight(s: seq<Uint32>, id: Uint32)
    ensures Pushed(LastEight(s), id) == LastEight(s + [id])
  {
    if |s| >= HISTORY_DEPTH {
      assert s[|s| - HISTORY_DEPTH..][1..] == s[|s| + 1 - HISTORY_DEPTH..];
      assert s[|s| + 1 - HISTORY_DEPTH..] + [id] == (s + [id])[|s| + 1 - HISTORY_DEPTH..];
    }
  }

  /** `nav` is where `k` Back calls from `visited` should have led. */
  predicate WentBack(nav: Nav, visited: Nav, path: seq<Uint32>, k: nat)
    requires k < |path|
  {
    && |visited.history| >= k
    && nav == visited.(active := Some(path[|path| - 1 - k]), history := visited.history[..|visited.history| - k])
  }

  /** The k-th Back call was accepted, published the right group, and `k` of them led back `k` moves. */
  predicate Retraced(visited: Nav, path: seq<Uint32>, k: nat)
    requires k < |path|
  {
    && WentBack(BackTimes(visited, k), visited, path, k)
    && (k > 0 ==>
          var o := Handled(BackTimes(visited, k - 1), Back, 0);
          o.status == Success && o.events == [ShowGroup(path[|path| - 1 - k])])
  }

  /** The j-th newest history entry is the group the path was in j moves ago. */
  predicate Remembers(history: seq<Uint32>, path: seq<Uint32>, j: nat) {
    0 < j <= |history| && j < |path| && history[|history| - j] == path[|path| - 1 - j]
  }

  /**
   After any walk, the next min(n, 8) Back calls retrace it in reverse: each is accepted, publishes
   exactly the group it returns to, and consumes exactly one entry.
   */
  lemma BackRetraces(nav: Nav, path: seq<Uint32>, k: nat)
    requires Walk(nav, path) && |nav.history| <= 8
    requires k < |path| && k <= 8
    ensures Retraced(Visit(nav, path, |path| - 1), path, k)
  {
    var visited := Visit(nav, path, |path| - 1);
    VisitedIsKnown(nav, path, k);
    BackFrom(visited, path, k);
  }

  lemma VisitedIsKnown(nav: Nav, path: seq<Uint32>, k: nat)
    requires Walk(nav, path) && |nav.history| <= HISTORY_DEPTH
    requires k < |path| && k <= HISTORY_DEPTH
    ensures Ready(Visit(nav, path, |path| - 1), path, k)
  {
    HistoryIsLastEight(nav, path, |path| - 1);
    WalkIsRemembered(nav.history, path, k, LastEight(nav.history + path[..|path| - 1]));
  }

  lemma WalkIsRemembered(older: seq<Uint32>, path: seq<Uint32>, k: nat, history: seq<Uint32>)
    requires k < |path| && k <= HISTORY_DEPTH && history == LastEight(older + path[..|path| - 1])
    ensures forall j :: 0 < j <= k ==> Remembers(history, path, j)
  {
    var left := path[..|path| - 1];
    forall j | 0 < j <= k ensures Remembers(history, path, j) {
      LastEightAt(older, left, j);
    }
  }

  /** Navigation stands at the end of the path and remembers its last `k` moves. */
  predicate Ready(visited: Nav, path: seq<Uint32>, k: nat)
    requires k < |path|
  {
    && visited.overlay.None? && visited.active == Some(path[|path| - 1])
    && (forall i :: 0 <= i < |path| ==> path[i] in visited.groupIds)
    && (forall i :: 0 < i < |path| ==> Moves(path, i))
    && (forall j :: 0 < j <= k ==> Remembers(visited.history, path, j))
  }

  lemma {:induction false} BackFrom(visited: Nav, path: seq<Uint32>, k: nat)
    requires k < |path| && Ready(visited, path, k)
    ensures Retraced(visited, path, k)
  {
    if k == 0 {
      assert visited.history[..|visited.history|] == visited.history;
    } else {
      BackFrom(visited, path, k - 1);
      assert Moves(path, |path| - k) && Remembers(visited.history, path, k);
      BackOneMore(BackTimes(visited, k - 1), visited, path, k);
    }
  }

  lemma BackOneMore(before: Nav, visited: Nav, path: seq<Uint32>, k: nat)
    requires 0 < k < |path| && WentBack(before, visited, path, k - 1) && |visited.history| >= k
    requires visited.history[|visited.history| - k] == path[|path| - 1 - k]
    requires visited.overlay.None? && path[|path| - 1 - k] in visited.groupIds
    requires path[|path| - 1 - k] != path[|path| - k]
    ensures WentBack(RequestBack(before).nav, visited, path, k)
    ensures RequestBack(before).status == Success
    ensures RequestBack(before).events == [ShowGroup(path[|path| - 1 - k])]
  {
    BackOnce(before, path[|path| - 1 - k]);
  }

  lemma LastEightAt(older: seq<Uint32>, left: seq<Uint32>, k: nat)
    requires 0 < k <= |left| && k <= HISTORY_DEPTH
    ensures var h := LastEight(older + left);
      |h| >= k && h[|h| - k] == left[|left| - k]
  {
  }

  lemma BackOnce(nav: Nav, to: Uint32)
    requires nav.history != [] && nav.history[|nav.history| - 1] == to
    requires nav.overlay.None? && to in nav.groupIds && nav.active != Some(to)
    ensures RequestBack(nav) == Outcome(
              nav.(active := Some(to), history := nav.history[..|nav.history| - 1]), Success, [ShowGroup(to)])
  {
  }

  /** A refused Back leaves every field as it was; an accepted one removes exactly the top entry. */
  lemma BackConsumesOnlyWhenAccepted(nav: Nav)
    ensures
      var o := RequestBack(nav);
      && (o.status != Success ==> o.nav == nav && o.events == [])
      && (o.status == Success <==>
            nav.history != [] && nav.overlay.None? && nav.history[|nav.history| - 1] in nav.groupIds)
      && (o.status == Success ==>
            o.nav.history == nav.history[..|nav.history| - 1] && o.nav.active == Some(nav.history[|nav.history| - 1]))
  {
  }

  /** What became of a move: only the group and the history can be others, and a new group is published, once. */
  predicate MovedTo(nav: Nav, o: Outcome) {
    && o.nav.groupIds == nav.groupIds && o.nav.overlay == nav.overlay
    && (o.nav.active == nav.active ==> o.events == [])
    && (o.nav.active != nav.active ==>
          o.status == Success && o.nav.active.Some? && o.nav.active.value in nav.groupIds
          && o.events == [ShowGroup(o.nav.active.value)])
  }

  /** The group that was left, and nothing else, is remembered. */
  predicate Remembered(nav: Nav, o: Outcome) {
    o.nav.history == if o.nav.active == nav.active || nav.active.None? then nav.history
                     else LastEight(nav.history + [nav.active.value])
  }

  lemma MoveIsRemembered(nav: Nav, id: Uint32)
    requires |nav.history| <= 8
    ensures Remembered(nav, Requested(nav, id, true))
  {
    if nav.active.Some? {
      PushedLastEight(nav.history, nav.active.value);
    }
  }

  /** Every gesture and request that moves on remembers the group it leaves, and nothing else is remembered. */
  lemma MovesAreRemembered(nav: Nav, intent: Intent, argument: Uint32)
    requires |nav.history| <= 8 && intent != Back
    ensures Remembered(nav, Handled(nav, intent, argument))
  {
    match intent
    case GoToGroup => MoveIsRemembered(nav, argument);
    case NextGroup =>
      if ActiveIndex(nav).Some? {
        MoveIsRemembered(nav, nav.groupIds[(ActiveIndex(nav).value + 1) % |nav.groupIds|]);
      }
    case PreviousGroup =>
      if ActiveIndex(nav).Some? {
        MoveIsRemembered(nav, nav.groupIds[(ActiveIndex(nav).value + |nav.groupIds| - 1) % |nav.groupIds|]);
      }
    case _ =>
  }

  lemma MoveIsPublished(nav: Nav, id: Uint32, record: bool)
    ensures MovedTo(nav, Requested(nav, id, record))
  {
  }

  /** The group that is moved to is published, once, and only when it is another one. */
  lemma MovesArePublished(nav: Nav, intent: Intent, argument: Uint32)
    requires intent in {NextGroup, PreviousGroup, GoToGroup, Back}
    ensures MovedTo(nav, Handled(nav, intent, argument))
  {
    match intent
    case GoToGroup => MoveIsPublished(nav, argument, true);
    case NextGroup =>
      if ActiveIndex(nav).Some? {
        MoveIsPublished(nav, nav.groupIds[(ActiveIndex(nav).value + 1) % |nav.groupIds|], true);
      }
    case PreviousGroup =>
      if ActiveIndex(nav).Some? {
        MoveIsPublished(nav, nav.groupIds[(ActiveIndex(nav).value + |nav.groupIds| - 1) % |nav.groupIds|], true);
      }
    case Back =>
      if nav.history != [] {
        MoveIsPublished(nav, nav.history[|nav.history| - 1], false);
      }
    case _ =>
  }

  /** Which requests are accepted, and how the others are answered. */
  lemma AnswersAre(nav: Nav, argument: Uint32)
    ensures
      var o := Handled(nav, GoToGroup, argument);
      if nav.overlay.Some? then o.status == Busy
      else if argument !in nav.groupIds then o.status == NoEntry
      else o.status == Success && o.nav.active == Some(argument)
    ensures
      var o := Handled(nav, OpenOverlay, argument);
      if nav.overlay.Some? then o == Outcome(nav, Busy, [])
      else o.status == Success && o.nav.overlay == Some(argument) && o.nav.active == nav.active
           && o.events == [ShowOverlay(argument)]
    ensures
      var o := Handled(nav, DismissOverlay, argument);
      if nav.overlay.None? then o == Outcome(nav, NoEntry, [])
      else o.status == Success && o.nav.overlay.None? && o.nav.active == nav.active
           && o.events == [CloseOverlay(nav.overlay.value)]
    ensures Handled(nav, NoIntent, argument) == Outcome(nav, Invalid, [])
    ensures nav.active.None? || nav.active.value !in nav.groupIds ==>
              Handled(nav, NextGroup, argument).status == Handled(nav, PreviousGroup, argument).status == NoEntry
  {
    if nav.active.Some? {
      assert IndexOf(nav.groupIds, nav.active.value) < |nav.groupIds| ==> nav.active.value in nav.groupIds;
    }
  }

  // ---------------------------------------------------------------- cycling through the groups

  function NextTimes(nav: Nav, k: nat): Nav {
    if k == 0 then nav else Handled(NextTimes(nav, k - 1), NextGroup, 0).nav
  }

  lemma IndexOfDistinct(ids: seq<Uint32>, i: nat)
    requires Distinct(ids) && i < |ids|
    ensures IndexOf(ids, ids[i]) == i
  {
    var j := IndexOf(ids, ids[i]);
    assert j <= i;
  }

  /** Counting `a` places round a ring of `n`. */
  function Round(a: nat, n: nat): (r: nat)
    requires n > 0
    ensures r < n
  {
    if a < n then a else Round(a - n, n)
  }

  lemma {:induction false} RoundIsMod(a: nat, n: nat)
    requires n > 0
    ensures Round(a, n) == a % n
  {
    if a < n {
      ModIs(a, 0, n, a);
    } else {
      RoundIsMod(a - n, n);
      var q, r := (a - n) / n, (a - n) % n;
      assert a - n == n * q + r;
      assert (q + 1) * n == n * q + n;
      ModIs(a, q + 1, n, r);
    }
  }

  lemma {:induction false} RoundStep(a: nat, n: nat)
    requires n > 0
    ensures Round(a + 1, n) == (if Round(a, n) + 1 == n then 0 else Round(a, n) + 1)
  {
    if a >= n {
      RoundStep(a - n, n);
    } else if a + 1 == n {
      assert Round(0, n) == 0;
    }
  }

  /**
   From any configured group, k Next gestures reach the k-th following group in id order, wrapping
   round: n of them visit every group once and come back.
   */
  lemma {:induction false} NextCycles(nav: Nav, i: nat, k: nat)
    requires Distinct(nav.groupIds) && i < |nav.groupIds|
    requires nav.active == Some(nav.groupIds[i]) && nav.overlay.None?
    ensures IsAt(NextTimes(nav, k), nav.groupIds, i + k)
  {
    if k > 0 {
      var before := NextTimes(nav, k - 1);
      NextCycles(nav, i, k - 1);
      NextOnce(before, nav.groupIds, i + k - 1);
      assert NextTimes(nav, k) == Handled(before, NextGroup, 0).nav;
    }
  }

  /** Navigation stands at the i-th group counted round and round. */
  predicate IsAt(nav: Nav, ids: seq<Uint32>, i: nat)
    requires ids != []
  {
    nav.active == Some(ids[Round(i, |ids|)]) && nav.groupIds == ids && nav.overlay.None?
  }

  lemma NextOnce(nav: Nav, ids: seq<Uint32>, m: nat)
    requires Distinct(ids) && ids != [] && IsAt(nav, ids, m)
    ensures IsAt(Handled(nav, NextGroup, 0).nav, ids, m + 1)
  {
    var n := |nav.groupIds|;
    var j := Round(m, n);
    IndexOfDistinct(nav.groupIds, j);
    RoundStep(m, n);
    RoundIsMod(j + 1, n);
    RoundStep(j, n);
  }

  lemma OneForwardOneBack(i: nat, n: nat)
    requires i < n
    ensures ((i + 1) % n + n - 1) % n == i
  {
    if i + 1 < n {
      ModIs(i + 1, 0, n, i + 1);
      ModIs(i + n, 1, n, i);
    } else {
      ModIs(i + 1, 1, n, 0);
      ModIs(n - 1, 0, n, n - 1);
    }
  }

  /** Previous undoes Next. */
  lemma PreviousUndoesNext(nav: Nav, i: nat)
    requires Distinct(nav.groupIds) && i < |nav.groupIds|
    requires nav.active == Some(nav.groupIds[i]) && nav.overlay.None?
    ensures Handled(Handled(nav, NextGroup, 0).nav, PreviousGroup, 0).nav.active == nav.active
  {
    NextOnce(nav, nav.groupIds, i);
    var j := Round(i + 1, |nav.groupIds|);
    RoundIsMod(i + 1, |nav.groupIds|);
    PreviousOnce(RequestNext(nav).nav, j);
    OneForwardOneBack(i, |nav.groupIds|);
  }

  lemma PreviousOnce(nav: Nav, j: nat)
    requires Distinct(nav.groupIds) && j < |nav.groupIds|
    requires nav.active == Some(nav.groupIds[j]) && nav.overlay.None?
    ensures RequestPrevious(nav).nav.active == Some(nav.groupIds[(j + |nav.groupIds| - 1) % |nav.groupIds|])
  {
    IndexOfDistinct(nav.groupIds, j);
  }

  // ---------------------------------------------------------------- the service itself

  /** The navigation event channel: FIFO and lossless, drained by the bus worker. */
  class NavigationChannel {
    var queue: seq<NavEvent>

    constructor ()
      ensures queue == []
    {
      queue := [];
    }

    method PublishAsync(event: NavEvent)
      modifies this
      ensures queue == old(queue) + [event]
    {
      queue := queue + [event];
    }
  }

  predicate Ascending(ids: seq<Uint32>) {
    forall i, j :: 0 <= i < j < |ids| ==> ids[i] <= ids[j]
  }

  function Inserted(sorted: seq<Uint32>, id: Uint32): (r: seq<Uint32>)
    ensures multiset(r) == multiset(sorted) + multiset{id}
  {
    if sorted == [] || id <= sorted[0] then [id] + sorted
    else
      assert sorted == [sorted[0]] + sorted[1..];
      [sorted[0]] + Inserted(sorted[1..], id)
  }

  lemma {:induction false} InsertedIsAscending(sorted: seq<Uint32>, id: Uint32)
    requires Ascending(sorted)
    ensures Ascending(Inserted(sorted, id))
    ensures Inserted(sorted, id)[0] == if sorted == [] || id <= sorted[0] then id else sorted[0]
  {
    if sorted != [] && id > sorted[0] {
      var tail := Inserted(sorted[1..], id);
      InsertedIsAscending(sorted[1..], id);
      assert forall j :: 0 < j < |tail| ==> tail[0] <= tail[j];
    }
  }

  class NavigationService {
    var screenGroupIds: seq<Uint32>
    var activeScreenGroupId: Option<Uint32>
    const history: array<Uint32>
    var historyCount: nat
    var activeOverlayScreenId: Option<Uint32>
    const channel: NavigationChannel

    ghost predicate Valid()
      reads this
    {
      history.Length == HISTORY_DEPTH && historyCount <= HISTORY_DEPTH
    }

    ghost function State(): Nav
      reads this, history
      requires Valid()
    {
      Nav(screenGroupIds, activeScreenGroupId, history[..historyCount], activeOverlayScreenId)
    }

    constructor (channel: NavigationChannel)
      ensures Valid() && fresh(history) && this.channel == channel
      ensures State() == Nav([], None, [], None)
    {
      history := new Uint32[HISTORY_DEPTH](_ => 0);
      historyCount := 0;
      screenGroupIds, activeScreenGroupId, activeOverlayScreenId := [], None, None;
      this.channel := channel;
    }

    method SetGroupIds(ids: seq<Uint32>)
      requires Valid()
      modifies `screenGroupIds
      ensures Valid() && State() == old(State()).(groupIds := screenGroupIds)
      ensures multiset(screenGroupIds) == multiset(ids)
      ensures Ascending(screenGroupIds)
    {
      var sorted: seq<Uint32> := [];
      for k := 0 to |ids|
        invariant multiset(sorted) == multiset(ids[..k])
        invariant Ascending(sorted)
      {
        assert ids[..k + 1] == ids[..k] + [ids[k]];
        InsertedIsAscending(sorted, ids[k]);
        sorted := Inserted(sorted, ids[k]);
      }
      assert ids[..|ids|] == ids;
      screenGroupIds := sorted;
    }

    method SetActiveGroupId(id: Uint32)
      requires Valid()
      modifies this
      ensures Valid() && State() == old(State()).(active := Some(id))
    {
      activeScreenGroupId := Some(id);
    }

    method PushHistory(id: Uint32)
      requires Valid()
      modifies `historyCount, history
      ensures Valid()
      ensures history[..historyCount] == Pushed(old(history[..historyCount]), id)
    {
      ghost var was := history[..historyCount];
      if historyCount == HISTORY_DEPTH {
        var first := history[0];
        forall i | 0 <= i < HISTORY_DEPTH - 1 {
          history[i] := history[i + 1];
        }
        history[HISTORY_DEPTH - 1] := first;
        historyCount := historyCount - 1;
        assert history[..historyCount] == was[1..];
      }
      history[historyCount] := id;
      historyCount := historyCount + 1;
    }

    method RequestGroup(id: Uint32, recordHistory: bool) returns (status: Status, toPublish: Option<Uint32>)
      requires Valid()
      modifies this, history
      ensures Valid()
      ensures
        var o := Requested(old(State()), id, recordHistory);
        && State() == o.nav && status == o.status
        && o.events == if toPublish.Some? then [ShowGroup(toPublish.value)] else []
    {
      toPublish := None;
      if activeOverlayScreenId.Some? {
        return Busy, None;
      }
      var found := FindGroup(id);
      if found == |screenGroupIds| {
        return NoEntry, None;
      }
      if activeScreenGroupId == Some(id) {
        return Success, None;
      }
      if recordHistory && activeScreenGroupId.Some? {
        PushHistory(activeScreenGroupId.value);
      }
      activeScreenGroupId := Some(id);
      return Success, Some(id);
    }

    method FindGroup(id: Uint32) returns (i: nat)
      ensures i == IndexOf(screenGroupIds, id)
      ensures i < |screenGroupIds| <==> id in screenGroupIds
    {
      i := 0;
      while i < |screenGroupIds| && screenGroupIds[i] != id
        invariant i <= |screenGroupIds|
        invariant forall j :: 0 <= j < i ==> screenGroupIds[j] != id
      {
        i := i + 1;
      }
      var k := IndexOf(screenGroupIds, id);
      assert !(i < k) && !(k < i);
    }

    method PublishGroup(toPublish: Option<Uint32>)
      modifies channel
      ensures channel.queue == old(channel.queue) + if toPublish.Some? then [ShowGroup(toPublish.value)] else []
    {
      if toPublish.Some? {
        channel.PublishAsync(ShowGroup(toPublish.value));
      }
    }

    method Next() returns (status: Status)
      requires Valid()
      modifies this, history, channel
      ensures Did(RequestNext(old(State())), status, old(channel.queue))
    {
      status := NoEntry;
      var toPublish: Option<Uint32> := None;
      if activeScreenGroupId.Some? {
        var i := FindGroup(activeScreenGroupId.value);
        if i < |screenGroupIds| {
          status, toPublish := RequestGroup(screenGroupIds[(i + 1) % |screenGroupIds|], true);
        }
      }
      PublishGroup(toPublish);
    }

    method Previous() returns (status: Status)
      requires Valid()
      modifies this, history, channel
      ensures Did(RequestPrevious(old(State())), status, old(channel.queue))
    {
      status := NoEntry;
      var toPublish: Option<Uint32> := None;
      if activeScreenGroupId.Some? {
        var i := FindGroup(activeScreenGroupId.value);
        if i < |screenGroupIds| {
          status, toPublish := RequestGroup(screenGroupIds[(i + |screenGroupIds| - 1) % |screenGroupIds|], true);
        }
      }
      PublishGroup(toPublish);
    }

    method GoToGroup(id: Uint32) returns (status: Status)
      requires Valid()
      modifies this, history, channel
      ensures Did(Requested(old(State()), id, true), status, old(channel.queue))
    {
      var toPublish;
      status, toPublish := RequestGroup(id, true);
      PublishGroup(toPublish);
    }

    method Back() returns (status: Status)
      requires Valid()
      modifies this, history, channel
      ensures Did(RequestBack(old(State())), status, old(channel.queue))
    {
      status := NoEntry;
      var toPublish: Option<Uint32> := None;
      if historyCount > 0 {
        var top := history[historyCount - 1];
        ghost var was := history[..historyCount];
        status, toPublish := RequestGroup(top, false);
        assert history[..historyCount] == was;
        // A refused request leaves its entry on the history.
        if status == Success {
          historyCount := historyCount - 1;
          assert history[..historyCount] == was[..|was| - 1];
        }
      }
      PublishGroup(toPublish);
    }

    method ShowOverlay(screen: Uint32) returns (status: Status)
      requires Valid()
      modifies this, channel
      ensures Did(RequestOverlay(old(State()), screen), status, old(channel.queue))
    {
      if activeOverlayScreenId.Some? {
        return Busy;
      }
      activeOverlayScreenId := Some(screen);
      channel.PublishAsync(NavEvent.ShowOverlay(screen));
      status := Success;
    }

    method CloseOverlay() returns (status: Status)
      requires Valid()
      modifies this, channel
      ensures Did(RequestClose(old(State())), status, old(channel.queue))
    {
      var closed := activeOverlayScreenId;
      activeOverlayScreenId := None;
      if closed.None? {
        return NoEntry;
      }
      channel.PublishAsync(NavEvent.CloseOverlay(closed.value));
      status := Success;
    }

    method Handle(intent: Intent, argument: Uint32) returns (status: Status)
      requires Valid()
      modifies this, history, channel
      ensures Did(Handled(old(State()), intent, argument), status, old(channel.queue))
    {
      match intent
      case NextGroup => status := Next();
      case PreviousGroup => status := Previous();
      case GoToGroup => status := GoToGroup(argument);
      case Back => status := Back();
      case OpenOverlay => status := ShowOverlay(argument);
      case DismissOverlay => status := CloseOverlay();
      case NoIntent => status := Invalid;
    }

    /** The call ended as `o` says, with `queue` the channel's content before it. */
    ghost predicate Did(o: Outcome, status: Status, queue: seq<NavEvent>)
      reads this, history, channel
    {
      Valid() && State() == o.nav && status == o.status && channel.queue == queue + o.events
    }
  }
}
