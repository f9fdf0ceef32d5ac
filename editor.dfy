/** The interaction state machine of the canvas editor: the point map and the
    optional selected label, and the four transitions that the pointer handlers
    and the "Clear Lines" button apply to them. */
module Editor {
  import opened Wrappers
  import opened Points

  /** The two state cells of the component, `points` and `selectedPoint`. */
  datatype State = State(points: seq<Entry>, selected: Option<Label>)

  /** The state right after mounting: `useState({})`, `useState(null)`. */
  const Initial: State := State([], None)

  /** `handleStart(x, y)`: select the first point within reach of the press,
      otherwise store a new point under the label computed from the count. */
  function AfterPress(s: State, q: Point): State
  {
    match FirstNear(s.points, q)
    case Some(i) => s.(selected := Some(s.points[i].key))
    case None => s.(points := Put(s.points, LabelFor(|s.points|), q))
  }

  /** `handleMove(x, y)`: store the pointer position under the selected label. */
  function AfterMove(s: State, q: Point): State
  {
    match s.selected
    case Some(k) => s.(points := Put(s.points, k, q))
    case None => s
  }

  /** `handleEnd()`: drop the selection. */
  function AfterRelease(s: State): State
  {
    s.(selected := None)
  }

  /** `handleClearLines()`: empty the point map; the selection is left as it is. */
  function AfterClear(s: State): State
  {
    s.(points := [])
  }

  /** The selection, if any, names a point that exists. */
  predicate SelectionValid(s: State)
  {
    s.selected.Some? ==> s.selected.value in Labels(s.points)
  }

  /** The component itself: the two state cells, updated in place by the handlers. */
  class Canvas {
    var points: seq<Entry>
    var selected: Option<Label>

    /** The current value of the two state cells. */
    function Snapshot(): State
      reads this
    {
      State(points, selected)
    }

    constructor ()
      ensures Snapshot() == Initial
    {
      points := [];
      selected := None;
    }

    /** Pointer down at (x, y). */
    method Press(x: real, y: real)
      modifies this
      ensures Snapshot() == AfterPress(old(Snapshot()), Point(x, y))
    {
      var q := Point(x, y);
      var near := FindNear(points, q);
      match near {
        case Some(i) =>
          selected := Some(points[i].key);
        case None =>
          points := Put(points, LabelFor(|points|), q);
      }
    }

    /** Pointer move to (x, y). */
    method Move(x: real, y: real)
      modifies this
      ensures Snapshot() == AfterMove(old(Snapshot()), Point(x, y))
    {
      if selected.Some? {
        points := Put(points, selected.value, Point(x, y));
      }
    }

    /** Pointer up. */
    method Release()
      modifies this
      ensures Snapshot() == AfterRelease(old(Snapshot()))
    {
      selected := None;
    }

    /** The "Clear Lines" button. */
    method Clear()
      modifies this
      ensures Snapshot() == AfterClear(old(Snapshot()))
    {
      points := [];
    }
  }

  /** A press farther than 20 pixels from every point of a sequentially labelled
      map appends exactly one point, labelled with the next letter, and changes
      nothing else. */
  lemma PressFarAppends(s: State, q: Point)
    requires Sequential(s.points) && |s.points| < LabelCount
    requires forall j :: 0 <= j < |s.points| ==> !Near(s.points[j].at, q)
    ensures AfterPress(s, q).points == s.points + [Entry(LabelFor(|s.points|), q)]
    ensures AfterPress(s, q).selected == s.selected
    ensures Sequential(AfterPress(s, q).points)
  {
    var n := |s.points|;
    assert FirstNear(s.points, q).None?;
    NextLabelFresh(s.points);
    var t := Put(s.points, LabelFor(n), q);
    assert t == s.points + [Entry(LabelFor(n), q)];
    forall i | 0 <= i < |t| ensures t[i].key == LabelFor(i) {
      if i < n {
        assert t[i] == s.points[i];
      }
    }
  }

  /** A press within 20 pixels of some point creates nothing and selects the
      first such point in enumeration order. */
  lemma PressNearSelects(s: State, q: Point, i: nat)
    requires i < |s.points| && Near(s.points[i].at, q)
    requires forall j :: 0 <= j < i ==> !Near(s.points[j].at, q)
    ensures AfterPress(s, q).points == s.points
    ensures AfterPress(s, q).selected == Some(s.points[i].key)
  {
  }

  /** A press far from every point, whose computed label is already a key,
      overwrites that point: the count does not grow and the key order stays. */
  lemma PressCollisionOverwrites(s: State, q: Point)
    requires forall j :: 0 <= j < |s.points| ==> !Near(s.points[j].at, q)
    requires LabelFor(|s.points|) in Labels(s.points)
    ensures |AfterPress(s, q).points| == |s.points|
    ensures Labels(AfterPress(s, q).points) == Labels(s.points)
    ensures Lookup(AfterPress(s, q).points, LabelFor(|s.points|)) == Some(q)
  {
  }

  /** Once all 2^16 labels are used, the next far press computes the label 'A'
      again and moves point A instead of adding a point. */
  lemma PressAtCapacityOverwritesFirst(s: State, q: Point)
    requires Sequential(s.points) && |s.points| == LabelCount
    requires forall j :: 0 <= j < |s.points| ==> !Near(s.points[j].at, q)
    ensures |AfterPress(s, q).points| == |s.points|
    ensures Lookup(AfterPress(s, q).points, FirstLabel) == Some(q)
  {
    assert FirstNear(s.points, q).None?;
    assert LabelFor(|s.points|) == FirstLabel;
    assert s.points[0].key == LabelFor(0) == FirstLabel;
    assert Labels(s.points)[0] == FirstLabel;
  }

  /** A move with a selection stores (x, y) under exactly that label; a label that
      exists keeps its place, every other point and the selection are unchanged. */
  lemma MoveSetsSelected(s: State, q: Point)
    requires s.selected.Some?
    ensures Lookup(AfterMove(s, q).points, s.selected.value) == Some(q)
    ensures forall j :: j != s.selected.value ==> Lookup(AfterMove(s, q).points, j) == Lookup(s.points, j)
    ensures s.selected.value in Labels(s.points) ==> Labels(AfterMove(s, q).points) == Labels(s.points)
    ensures AfterMove(s, q).selected == s.selected
  {
  }

  /** A move without a selection changes nothing. */
  lemma MoveUnselectedNoop(s: State, q: Point)
    requires s.selected.None?
    ensures AfterMove(s, q) == s
  {
  }

  /** A release drops the selection and keeps the points, from any state. */
  lemma ReleaseClearsSelection(s: State)
    ensures AfterRelease(s).selected.None?
    ensures AfterRelease(s).points == s.points
  {
  }

  /** Clear empties the map, keeps the selection, and a second clear changes nothing. */
  lemma ClearEmpties(s: State)
    ensures AfterClear(s).points == []
    ensures AfterClear(s).selected == s.selected
    ensures AfterClear(AfterClear(s)) == AfterClear(s)
  {
  }

  /** Press, move and release never leave the selection pointing at a missing point. */
  lemma StepsKeepSelectionValid(s: State, q: Point)
    requires SelectionValid(s)
    ensures SelectionValid(AfterPress(s, q))
    ensures SelectionValid(AfterMove(s, q))
    ensures SelectionValid(AfterRelease(s))
  {
    match FirstNear(s.points, q)
    case Some(i) =>
      assert Labels(s.points)[i] == s.points[i].key;
    case None =>
      if s.selected.Some? {
        PutKeepsKeys(s.points, LabelFor(|s.points|), q, s.selected.value);
      }
  }

  /** Clear does not: clearing while a point is held leaves a stale selection. */
  lemma ClearBreaksSelectionValid()
    ensures var s := State([Entry(FirstLabel, Point(0.0, 0.0))], Some(FirstLabel));
            SelectionValid(s) && !SelectionValid(AfterClear(s))
  {
    var s := State([Entry(FirstLabel, Point(0.0, 0.0))], Some(FirstLabel));
    assert Labels(s.points) == [FirstLabel];
  }

  /** No transition ever makes a key appear twice. */
  lemma StepsKeepDistinct(s: State, q: Point)
    requires Distinct(Labels(s.points))
    ensures Distinct(Labels(AfterPress(s, q).points))
    ensures Distinct(Labels(AfterMove(s, q).points))
    ensures Distinct(Labels(AfterRelease(s).points))
    ensures Distinct(Labels(AfterClear(s).points))
  {
    PutKeepsDistinct(s.points, LabelFor(|s.points|), q);
    if s.selected.Some? {
      PutKeepsDistinct(s.points, s.selected.value, q);
    }
  }

  /** The keys stay exactly 'A', 'B', ... in order under press (below 2^16 points),
      release, clear, and a move whose selected label exists. */
  lemma StepsKeepSequential(s: State, q: Point)
    requires Sequential(s.points)
    ensures |s.points| < LabelCount ==> Sequential(AfterPress(s, q).points)
    ensures SelectionValid(s) ==> Sequential(AfterMove(s, q).points)
    ensures Sequential(AfterRelease(s).points)
    ensures Sequential(AfterClear(s).points)
  {
    if |s.points| < LabelCount && FirstNear(s.points, q).None? {
      PressFarAppends(s, q);
    }
    if s.selected.Some? && s.selected.value in Labels(s.points) {
      var t := AfterMove(s, q).points;
      forall i | 0 <= i < |t| ensures t[i].key == LabelFor(i) {
        assert Labels(t)[i] == Labels(s.points)[i];
      }
    }
  }

  /** With a stale selection, a move re-inserts the old label at the end of the map. */
  lemma StaleMoveReinserts(s: State, q: Point)
    requires s.selected.Some? && s.selected.value !in Labels(s.points)
    ensures AfterMove(s, q).points == s.points + [Entry(s.selected.value, q)]
  {
  }

  /** The whole story from an empty canvas: place A and B, grab B, clear while
      holding it, move (B comes back alone), then press far away: the press
      computes the label B again and overwrites it, so there is still one point
      and the keys are no longer 'A', 'B', ... */
  lemma StaleSelectionCollision()
    ensures var s1 := AfterPress(Initial, Point(0.0, 0.0));
            var s2 := AfterPress(s1, Point(100.0, 0.0));
            var s3 := AfterPress(s2, Point(100.0, 0.0));
            var s4 := AfterClear(s3);
            var s5 := AfterMove(s4, Point(50.0, 50.0));
            var s6 := AfterPress(s5, Point(300.0, 300.0));
            && s2.points == [Entry(65, Point(0.0, 0.0)), Entry(66, Point(100.0, 0.0))]
            && s3.selected == Some(66)
            && s4.points == [] && s4.selected == Some(66)
            && s5.points == [Entry(66, Point(50.0, 50.0))]
            && !Sequential(s5.points)
            && s6.points == [Entry(66, Point(300.0, 300.0))]
  {
    var s1 := AfterPress(Initial, Point(0.0, 0.0));
    assert s1.points == [Entry(65, Point(0.0, 0.0))];
    var s2 := AfterPress(s1, Point(100.0, 0.0));
    assert !Near(s1.points[0].at, Point(100.0, 0.0));
    assert s2.points == [Entry(65, Point(0.0, 0.0)), Entry(66, Point(100.0, 0.0))];
    var s3 := AfterPress(s2, Point(100.0, 0.0));
    assert FirstNear(s2.points, Point(100.0, 0.0)) == Some(1);
    assert s3 == State(s2.points, Some(66));
    var s4 := AfterClear(s3);
    assert s4 == State([], Some(66));
    var s5 := AfterMove(s4, Point(50.0, 50.0));
    assert s5.points == [Entry(66, Point(50.0, 50.0))];
    assert s5.points[0].key != LabelFor(0);
    assert !Near(s5.points[0].at, Point(300.0, 300.0));
    assert FirstNear(s5.points, Point(300.0, 300.0)).None?;
    assert LabelFor(|s5.points|) == 66;
    assert Put(s5.points, 66, Point(300.0, 300.0)) == [Entry(66, Point(300.0, 300.0))];
  }
}
