/** ScreenConfiguration::AddWidget: widgets in z-order, equal ones in the order they came. */
module WidgetOrder {
  import opened Common
  import opened UiModel

  predicate InOrder(ws: seq<WidgetConfiguration>) {
    forall i, j :: 0 <= i < j < |ws| ==> ws[i].zIndex <= ws[j].zIndex
  }

  /** The widget in front of the first that lies above it. */
  function Inserted(ws: seq<WidgetConfiguration>, w: WidgetConfiguration): seq<WidgetConfiguration> {
    if ws == [] || w.zIndex < ws[0].zIndex then [w] + ws else [ws[0]] + Inserted(ws[1..], w)
  }

  /** One widget after another added to an empty screen. */
  function Added(ws: seq<WidgetConfiguration>): seq<WidgetConfiguration> {
    if ws == [] then [] else Inserted(Added(ws[..|ws| - 1]), ws[|ws| - 1])
  }

  function AtLevel(w: WidgetConfiguration, z: Int32): seq<WidgetConfiguration> {
    if w.zIndex == z then [w] else []
  }

  /** The widgets of one level, in order. */
  function Level(ws: seq<WidgetConfiguration>, z: Int32): seq<WidgetConfiguration> {
    if ws == [] then [] else AtLevel(ws[0], z) + Level(ws[1..], z)
  }

  /** At a point where everything before is not above and everything behind is, that is where it goes. */
  lemma {:induction false} InsertedAt(ws: seq<WidgetConfiguration>, w: WidgetConfiguration, k: nat)
    requires k <= |ws|
    requires forall i :: 0 <= i < k ==> ws[i].zIndex <= w.zIndex
    requires k < |ws| ==> w.zIndex < ws[k].zIndex
    ensures Inserted(ws, w) == ws[..k] + [w] + ws[k..]
    decreases |ws|
  {
    if k > 0 {
      InsertedAt(ws[1..], w, k - 1);
      assert ws[..k] == [ws[0]] + ws[1..][..k - 1];
    }
  }

  lemma {:induction false} InsertedLength(ws: seq<WidgetConfiguration>, w: WidgetConfiguration)
    ensures |Inserted(ws, w)| == |ws| + 1 && multiset(Inserted(ws, w)) == multiset(ws) + multiset{w}
  {
    if ws != [] && ws[0].zIndex <= w.zIndex {
      InsertedLength(ws[1..], w);
      assert ws == [ws[0]] + ws[1..];
    }
  }

  lemma InOrderFrom(head: WidgetConfiguration, tail: seq<WidgetConfiguration>)
    requires InOrder(tail) && forall i :: 0 <= i < |tail| ==> head.zIndex <= tail[i].zIndex
    ensures InOrder([head] + tail)
  {
    var ws := [head] + tail;
    forall i, j | 0 <= i < j < |ws| ensures ws[i].zIndex <= ws[j].zIndex {
      assert ws[j] == tail[j - 1];
      if i > 0 {
        assert ws[i] == tail[i - 1];
      }
    }
  }

  lemma {:induction false} InsertedInOrder(ws: seq<WidgetConfiguration>, w: WidgetConfiguration)
    requires InOrder(ws)
    ensures InOrder(Inserted(ws, w))
    ensures forall i :: 0 <= i < |Inserted(ws, w)| ==>
              Inserted(ws, w)[i].zIndex >= w.zIndex || (ws != [] && Inserted(ws, w)[i].zIndex >= ws[0].zIndex)
  {
    if ws == [] || w.zIndex < ws[0].zIndex {
      InOrderFrom(w, ws);
    } else {
      InsertedInOrder(ws[1..], w);
      InOrderFrom(ws[0], Inserted(ws[1..], w));
    }
  }

  lemma {:induction false} LevelJoins(a: seq<WidgetConfiguration>, b: seq<WidgetConfiguration>, z: Int32)
    ensures Level(a + b, z) == Level(a, z) + Level(b, z)
  {
    if a == [] {
      assert a + b == b;
    } else {
      LevelJoins(a[1..], b, z);
      assert (a + b)[0] == a[0] && (a + b)[1..] == a[1..] + b;
      Appended(AtLevel(a[0], z), Level(a[1..], z), Level(b, z));
    }
  }

  lemma Appended(a: seq<WidgetConfiguration>, b: seq<WidgetConfiguration>, c: seq<WidgetConfiguration>)
    ensures a + b + c == a + (b + c)
  {
  }

  lemma {:induction false} LevelAbove(ws: seq<WidgetConfiguration>, z: Int32)
    requires forall i :: 0 <= i < |ws| ==> ws[i].zIndex > z
    ensures Level(ws, z) == []
  {
    if ws != [] {
      LevelAbove(ws[1..], z);
    }
  }

  /** A widget joins its level at the end and leaves the other levels as they are. */
  lemma {:induction false} LevelOfInserted(ws: seq<WidgetConfiguration>, w: WidgetConfiguration, z: Int32)
    requires InOrder(ws)
    ensures Level(Inserted(ws, w), z) == Level(ws, z) + AtLevel(w, z)
  {
    if ws == [] || w.zIndex < ws[0].zIndex {
      LevelJoins([w], ws, z);
      if w.zIndex == z {
        LevelAbove(ws, z);
      }
    } else {
      LevelOfInserted(ws[1..], w, z);
      LevelJoins([ws[0]], Inserted(ws[1..], w), z);
    }
  }

  /** Adding widgets one by one sorts them. */
  lemma {:induction false} AddedIsSorted(ws: seq<WidgetConfiguration>)
    ensures InOrder(Added(ws)) && |Added(ws)| == |ws| && multiset(Added(ws)) == multiset(ws)
  {
    if ws != [] {
      var front, last := ws[..|ws| - 1], ws[|ws| - 1];
      AddedIsSorted(front);
      InsertedInOrder(Added(front), last);
      InsertedLength(Added(front), last);
      assert ws == front + [last];
    }
  }

  /** The sort is stable: on every level the widgets keep the order they were added in. */
  lemma {:induction false} AddedIsStable(ws: seq<WidgetConfiguration>, z: Int32)
    ensures Level(Added(ws), z) == Level(ws, z)
  {
    if ws != [] {
      var front, last := ws[..|ws| - 1], ws[|ws| - 1];
      AddedIsStable(front, z);
      AddedIsSorted(front);
      LevelOfInserted(Added(front), last, z);
      assert ws == front + [last];
      LevelJoins(front, [last], z);
    }
  }

  /** Adding is the identity exactly on widgets that are in order. */
  lemma {:induction false} AddedSameIff(ws: seq<WidgetConfiguration>)
    ensures Added(ws) == ws <==> InOrder(ws)
  {
    AddedIsSorted(ws);
    if InOrder(ws) && ws != [] {
      var front, last := ws[..|ws| - 1], ws[|ws| - 1];
      AddedSameIff(front);
      InsertedAt(front, last, |front|);
      assert ws == front + [last] + [];
    }
  }

  class Screen {
    var widgets: seq<WidgetConfiguration>

    constructor ()
      ensures widgets == []
    {
      widgets := [];
    }

    /** std::upper_bound, which asks for widgets in order, and the insertion in front of what it finds. */
    method AddWidget(w: WidgetConfiguration)
      requires InOrder(widgets)
      modifies this
      ensures widgets == Inserted(old(widgets), w) && InOrder(widgets)
    {
      var first, count := 0, |widgets|;
      while count > 0
        invariant 0 <= first && 0 <= count && first + count <= |widgets|
        invariant forall i :: 0 <= i < first ==> widgets[i].zIndex <= w.zIndex
        invariant forall i :: first + count <= i < |widgets| ==> w.zIndex < widgets[i].zIndex
      {
        var step := count / 2;
        if w.zIndex < widgets[first + step].zIndex {
          count := step;
        } else {
          first, count := first + step + 1, count - step - 1;
        }
      }
      InsertedAt(widgets, w, first);
      InsertedInOrder(widgets, w);
      widgets := widgets[..first] + [w] + widgets[first..];
    }
  }
}
