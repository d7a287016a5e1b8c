/** The shared move generator of MovesCalculator.java: for each direction
    of a table, cast a ray (sliding pieces) or take one step (king,
    knight). An empty square is taken and, when sliding, passed through;
    an enemy piece is taken and stops the ray; a friendly piece or the
    board's edge stops it without being taken. */
module MovesCalculator {
  import opened ChessTypes
  import opened ChessBoard

  /** A direction as the source's tables write it, {dx, dy}: dx is added to
      the column and dy to the row, once per step. */
  datatype Dir = Dir(dx: int, dy: int)

  predicate NonZero(d: Dir) {
    d.dx != 0 || d.dy != 0
  }

  /** a * k as repeated addition: k copies of a (subtracted for negative
      k). The generator computes dy * depth and dx * depth; spelling the
      product out keeps the reasoning about rays linear. */
  function Times(a: int, k: int): int
    decreases Abs(k)
  {
    if k == 0 then 0
    else if k > 0 then Times(a, k - 1) + a
    else Times(a, k + 1) - a
  }

  /** Times is multiplication. */
  lemma {:induction false} TimesIsProduct(a: int, k: int)
    ensures Times(a, k) == a * k
    decreases Abs(k)
  {
    if k > 0 {
      TimesIsProduct(a, k - 1);
    } else if k < 0 {
      TimesIsProduct(a, k + 1);
    }
  }

  /** The square k steps from start along d. */
  function Step(start: Position, d: Dir, k: int): Position {
    Position(start.row + Times(d.dy, k), start.col + Times(d.dx, k))
  }

  /** k copies of a nonzero step cover at least k squares. */
  lemma {:induction false} TimesAtLeast(a: int, k: nat)
    requires a != 0
    ensures Abs(Times(a, k)) >= k
    ensures a > 0 ==> Times(a, k) >= k
    ensures a < 0 ==> Times(a, k) + k <= 0
  {
    if k > 0 {
      TimesAtLeast(a, k - 1);
    }
  }

  /** k copies of a unit component: k, -k or nothing. */
  lemma {:induction false} TimesUnit(u: int, k: int)
    requires -1 <= u <= 1
    ensures Times(u, k) == (if u == 1 then k else if u == -1 then -k else 0)
    decreases Abs(k)
  {
    if k > 0 {
      TimesUnit(u, k - 1);
    } else if k < 0 {
      TimesUnit(u, k + 1);
    }
  }

  /** One step along d adds d. */
  lemma StepOne(s: Position, d: Dir)
    ensures Step(s, d, 1) == Position(s.row + d.dy, s.col + d.dx)
  {
    assert Times(d.dy, 1) == Times(d.dy, 0) + d.dy;
    assert Times(d.dx, 1) == Times(d.dx, 0) + d.dx;
  }

  /** Every step of at least one square leaves the start, and a ray from
      an on-board square is off the board after at most seven steps. */
  lemma StepBounds(start: Position, d: Dir, k: int)
    requires start.InBounds() && NonZero(d) && k >= 1
    ensures Step(start, d, k) != start
    ensures Step(start, d, k).InBounds() ==> k <= 7
  {
    if d.dy != 0 {
      TimesAtLeast(d.dy, k);
    } else {
      TimesAtLeast(d.dx, k);
    }
  }

  /** The squares at steps from..to-1 along d are on the board and empty. */
  ghost predicate Clear(b: Board, start: Position, d: Dir, from: int, to: int) {
    forall j :: from <= j < to ==> Step(start, d, j).InBounds() && Get(b, Step(start, d, j)).None?
  }

  /** The ray along d starting at step `depth` may end at step k: the
      squares before it are empty, it is on the board, and it does not hold
      a piece of the mover's team; a single-step generator only reaches the
      first square. */
  ghost predicate Reach(iterative: bool, b: Board, start: Position, color: Color, d: Dir, depth: int, k: int) {
    && depth <= k
    && (iterative || k == depth)
    && Clear(b, start, d, depth, k)
    && Step(start, d, k).InBounds()
    && !Owned(b, Step(start, d, k), color)
  }

  /** One direction of calculateLinearMoves, from step `depth` on. */
  function Ray(iterative: bool, b: Board, start: Position, color: Color, d: Dir, depth: int): (r: seq<Move>)
    requires start.InBounds() && NonZero(d) && depth >= 1
    decreases 8 - depth
    ensures forall m | m in r ::
      m.start == start && m.promotion.None? && m.end.InBounds() && m.end != start && !Owned(b, m.end, color)
    ensures !iterative ==> |r| <= 1
  {
    var e := Step(start, d, depth);
    if !e.InBounds() || Owned(b, e, color) then []
    else
      StepBounds(start, d, depth);
      var rest := if iterative && Get(b, e).None? then Ray(iterative, b, start, color, d, depth + 1) else [];
      [Move(start, e, None)] + rest
  }

  /** Reach unfolded by one step: either the ray stops on its first
      square, or (sliding only) that square is empty and the ray goes on. */
  lemma ReachUnfold(iterative: bool, b: Board, start: Position, color: Color, d: Dir, depth: int)
    ensures forall k :: Reach(iterative, b, start, color, d, depth, k) <==>
      || (k == depth && Step(start, d, k).InBounds() && !Owned(b, Step(start, d, k), color))
      || (&& iterative && depth < k
          && Step(start, d, depth).InBounds() && Get(b, Step(start, d, depth)).None?
          && Reach(iterative, b, start, color, d, depth + 1, k))
  {
    forall k | iterative && depth < k
      ensures Clear(b, start, d, depth, k) <==>
        Step(start, d, depth).InBounds() && Get(b, Step(start, d, depth)).None? && Clear(b, start, d, depth + 1, k)
    {
    }
  }

  /** A ray yields exactly the squares its reach rule allows. */
  lemma {:induction false} RayExact(iterative: bool, b: Board, start: Position, color: Color, d: Dir, depth: int, e: Position)
    requires start.InBounds() && NonZero(d) && depth >= 1
    decreases 8 - depth
    ensures Move(start, e, None) in Ray(iterative, b, start, color, d, depth) <==>
      exists k :: e == Step(start, d, k) && Reach(iterative, b, start, color, d, depth, k)
  {
    var f := Step(start, d, depth);
    var r := Ray(iterative, b, start, color, d, depth);
    ReachUnfold(iterative, b, start, color, d, depth);
    if f.InBounds() && Get(b, f).None? && iterative {
      StepBounds(start, d, depth);
      var rest := Ray(iterative, b, start, color, d, depth + 1);
      assert r == [Move(start, f, None)] + rest;
      RayExact(iterative, b, start, color, d, depth + 1, e);
      if e == f {
        assert Reach(iterative, b, start, color, d, depth, depth);
      } else if Move(start, e, None) in rest {
        var k :| e == Step(start, d, k) && Reach(iterative, b, start, color, d, depth + 1, k);
        assert Reach(iterative, b, start, color, d, depth, k);
      }
    } else if f.InBounds() && e == f && !Owned(b, f, color) {
      assert Reach(iterative, b, start, color, d, depth, depth);
    }
  }

  predicate AllNonZero(dirs: seq<Dir>) {
    forall i | 0 <= i < |dirs| :: NonZero(dirs[i])
  }

  /** calculateLinearMoves: the rays of every direction, in table order. */
  function LinearMoves(iterative: bool, b: Board, start: Position, color: Color, dirs: seq<Dir>): (r: seq<Move>)
    requires start.InBounds() && AllNonZero(dirs)
    ensures forall m | m in r ::
      m.start == start && m.promotion.None? && m.end.InBounds() && m.end != start && !Owned(b, m.end, color)
    ensures !iterative ==> |r| <= |dirs|
  {
    if dirs == [] then []
    else Ray(iterative, b, start, color, dirs[0], 1) + LinearMoves(iterative, b, start, color, dirs[1..])
  }

  /** Joining two tables of nonzero directions gives such a table. */
  lemma AllNonZeroAppend(d1: seq<Dir>, d2: seq<Dir>)
    requires AllNonZero(d1) && AllNonZero(d2)
    ensures AllNonZero(d1 + d2)
  {
    forall i | 0 <= i < |d1 + d2|
      ensures NonZero((d1 + d2)[i])
    {
      if i < |d1| { assert (d1 + d2)[i] == d1[i]; } else { assert (d1 + d2)[i] == d2[i - |d1|]; }
    }
  }

  lemma ConcatAssoc<T>(x: seq<T>, y: seq<T>, z: seq<T>)
    ensures (x + y) + z == x + (y + z)
  {
  }

  /** The generator on a table headed by d: d's ray, then the rest. */
  lemma LinearMovesCons(iterative: bool, b: Board, start: Position, color: Color, d: Dir, ds: seq<Dir>)
    requires start.InBounds() && NonZero(d) && AllNonZero(ds) && AllNonZero([d] + ds)
    ensures LinearMoves(iterative, b, start, color, [d] + ds) ==
      Ray(iterative, b, start, color, d, 1) + LinearMoves(iterative, b, start, color, ds)
  {
    assert ([d] + ds)[0] == d;
    assert ([d] + ds)[1..] == ds;
  }

  /** Concatenating direction tables concatenates the generated moves. */
  lemma {:induction false} LinearMovesAppend(iterative: bool, b: Board, start: Position, color: Color, d1: seq<Dir>, d2: seq<Dir>)
    requires start.InBounds() && AllNonZero(d1) && AllNonZero(d2)
    ensures AllNonZero(d1 + d2)
    ensures LinearMoves(iterative, b, start, color, d1 + d2) ==
      LinearMoves(iterative, b, start, color, d1) + LinearMoves(iterative, b, start, color, d2)
  {
    AllNonZeroAppend(d1, d2);
    if d1 == [] {
      assert d1 + d2 == d2;
    } else {
      var d := d1[0];
      var t1 := d1[1..];
      assert d1 == [d] + t1;
      assert d1 + d2 == [d] + (t1 + d2);
      AllNonZeroAppend([d], t1);
      LinearMovesAppend(iterative, b, start, color, t1, d2);
      LinearMovesCons(iterative, b, start, color, d, t1 + d2);
      LinearMovesCons(iterative, b, start, color, d, t1);
      ConcatAssoc(Ray(iterative, b, start, color, d, 1),
                  LinearMoves(iterative, b, start, color, t1), LinearMoves(iterative, b, start, color, d2));
    }
  }

  /** A square is generated exactly when some listed direction reaches it:
      it lies k >= 1 steps along the direction (k = 1 for single steps),
      every square before it on the ray is empty, it is on the board, and
      it holds no piece of the mover's team. */
  lemma {:induction false} LinearMovesExact(iterative: bool, b: Board, start: Position, color: Color, dirs: seq<Dir>, e: Position)
    requires start.InBounds() && AllNonZero(dirs)
    ensures Move(start, e, None) in LinearMoves(iterative, b, start, color, dirs) <==>
      exists d, k :: d in dirs && e == Step(start, d, k) && Reach(iterative, b, start, color, d, 1, k)
  {
    if dirs != [] {
      var head := Ray(iterative, b, start, color, dirs[0], 1);
      var tail := LinearMoves(iterative, b, start, color, dirs[1..]);
      RayExact(iterative, b, start, color, dirs[0], 1, e);
      LinearMovesExact(iterative, b, start, color, dirs[1..], e);
      if exists d, k :: d in dirs && e == Step(start, d, k) && Reach(iterative, b, start, color, d, 1, k) {
        var d, k :| d in dirs && e == Step(start, d, k) && Reach(iterative, b, start, color, d, 1, k);
        if d != dirs[0] {
          assert d in dirs[1..];
        }
      }
      if Move(start, e, None) in tail {
        var d, k :| d in dirs[1..] && e == Step(start, d, k) && Reach(iterative, b, start, color, d, 1, k);
        assert d in dirs;
      }
    }
  }

  // ---------------------------------------------------------------------
  // Geometry of the straight line from one square to another

  /** The unit step from s toward e (each component -1, 0 or 1). */
  function Toward(s: Position, e: Position): Dir {
    Dir(Sign(e.col - s.col), Sign(e.row - s.row))
  }

  /** The number of king steps from s to e. */
  function Distance(s: Position, e: Position): int {
    Max(Abs(e.row - s.row), Abs(e.col - s.col))
  }

  /** Every square strictly between s and e on the line joining them is
      on the board and empty. */
  ghost predicate PathClear(b: Board, s: Position, e: Position) {
    Clear(b, s, Toward(s, e), 1, Distance(s, e))
  }

  /** A king step: each component -1, 0 or 1, not both 0. */
  predicate Unit(d: Dir) {
    -1 <= d.dx <= 1 && -1 <= d.dy <= 1 && NonZero(d)
  }


  /** k unit steps from s land on a square whose direction from s is that
      unit step and whose distance is k. */
  lemma UnitStepLine(s: Position, d: Dir, k: int)
    requires Unit(d) && k >= 1
    ensures Toward(s, Step(s, d, k)) == d && Distance(s, Step(s, d, k)) == k
    ensures Abs(Step(s, d, k).row - s.row) == (if d.dy == 0 then 0 else k)
    ensures Abs(Step(s, d, k).col - s.col) == (if d.dx == 0 then 0 else k)
  {
    var e := Step(s, d, k);
    TimesUnit(d.dy, k);
    TimesUnit(d.dx, k);
    assert e.row - s.row == (if d.dy == 1 then k else if d.dy == -1 then -k else 0);
    assert e.col - s.col == (if d.dx == 1 then k else if d.dx == -1 then -k else 0);
  }

  /** Conversely, a different square on a row, column or diagonal through s
      is reached from s by Distance unit steps toward it. */
  lemma LineStep(s: Position, e: Position)
    requires e != s
    requires e.row == s.row || e.col == s.col || Abs(e.row - s.row) == Abs(e.col - s.col)
    ensures Unit(Toward(s, e)) && Distance(s, e) >= 1
    ensures Step(s, Toward(s, e), Distance(s, e)) == e
  {
    var d, k := Toward(s, e), Distance(s, e);
    TimesUnit(d.dy, k);
    TimesUnit(d.dx, k);
  }

  /** e lies on the row, column or a diagonal through s. */
  predicate OnLine(s: Position, e: Position) {
    e.row == s.row || e.col == s.col || Abs(e.row - s.row) == Abs(e.col - s.col)
  }

  predicate AllUnit(dirs: seq<Dir>) {
    forall i | 0 <= i < |dirs| :: Unit(dirs[i])
  }

  /** A sliding generator over king steps reaches exactly the squares on a
      line through s whose direction is in the table, over empty squares,
      not held by the mover's team. */
  lemma SlidingExact(b: Board, s: Position, color: Color, dirs: seq<Dir>, e: Position)
    requires s.InBounds() && AllUnit(dirs)
    ensures AllNonZero(dirs)
    ensures Move(s, e, None) in LinearMoves(true, b, s, color, dirs) <==>
      && e.InBounds() && e != s && OnLine(s, e) && Toward(s, e) in dirs
      && PathClear(b, s, e) && !Owned(b, e, color)
  {
    LinearMovesExact(true, b, s, color, dirs, e);
    if Move(s, e, None) in LinearMoves(true, b, s, color, dirs) {
      var d, k :| d in dirs && e == Step(s, d, k) && Reach(true, b, s, color, d, 1, k);
      UnitStepLine(s, d, k);
    }
    if e.InBounds() && e != s && OnLine(s, e) && Toward(s, e) in dirs && PathClear(b, s, e) && !Owned(b, e, color) {
      LineStep(s, e);
      assert Reach(true, b, s, color, Toward(s, e), 1, Distance(s, e));
    }
  }

  /** A single-step generator reaches exactly the on-board squares one
      table offset away that the mover's team does not hold. */
  lemma SingleStepExact(b: Board, s: Position, color: Color, dirs: seq<Dir>, e: Position)
    requires s.InBounds() && AllNonZero(dirs)
    ensures Move(s, e, None) in LinearMoves(false, b, s, color, dirs) <==>
      e.InBounds() && Dir(e.col - s.col, e.row - s.row) in dirs && !Owned(b, e, color)
  {
    LinearMovesExact(false, b, s, color, dirs, e);
    var d := Dir(e.col - s.col, e.row - s.row);
    forall d', k | d' in dirs && e == Step(s, d', k) && Reach(false, b, s, color, d', 1, k)
      ensures d' == d && k == 1
    {
      StepOne(s, d');
    }
    StepOne(s, d);
    if e.InBounds() && d in dirs && !Owned(b, e, color) {
      assert Reach(false, b, s, color, d, 1, 1);
    }
  }
}
