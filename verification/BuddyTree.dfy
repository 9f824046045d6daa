/**
 The 8-ary occupancy tree of the buddy allocator, as a function of the set of live blocks.

 A node of level `l` is a number k < 8^l and holds eight bits, one per child; bit b of node k
 speaks about cell 8k + b of level l. A block of level q is a run of `width` cells of level q
 inside one node.
 */
module BuddyTree {
  import opened Shifts

  datatype Block = Block(level: nat, cell: nat, width: nat)

  ghost predicate WellFormed(B: Block)
  {
    0 < B.width && B.cell % 8 + B.width <= 8
  }

  /** The number of the cell `d` levels above cell `j`. */
  ghost function Up(j: nat, d: nat): nat
  {
    if d == 0 then j else Up(j / 8, d - 1)
  }

  lemma {:induction false} UpUp(j: nat, a: nat, b: nat)
    ensures Up(Up(j, a), b) == Up(j, a + b)
  {
    if a > 0 { UpUp(j / 8, a - 1, b); }
  }

  lemma UpParent(j: nat, d: nat)
    ensures Up(j, d + 1) == Up(j, d) / 8
  {
    UpUp(j, d, 1);
    assert Up(Up(j, d), 1) == Up(Up(j, d) / 8, 0);
  }

  /** The bit of cell `j` of level `l` stands for (part of) block B. */
  ghost predicate Touches(B: Block, l: nat, j: nat)
  {
    if l < B.level then Up(B.cell, B.level - l) == j
    else l == B.level && B.cell <= j < B.cell + B.width
  }

  /** The bit a set of live blocks puts at cell `j` of level `l`. */
  ghost predicate Occupied(live: set<Block>, l: nat, j: nat)
  {
    exists B :: B in live && Touches(B, l, j)
  }

  /** Some live block sets a bit of node `k` of level `l`. */
  ghost predicate InUse(live: set<Block>, l: nat, k: nat)
  {
    exists j: nat :: Occupied(live, l, j) && j / 8 == k
  }

  ghost predicate Overlap(A: Block, B: Block)
  {
    exists j :: Touches(A, Min(A.level, B.level), j) && Touches(B, Min(A.level, B.level), j)
  }

  ghost predicate Apart(live: set<Block>)
  {
    && (forall B :: B in live ==> WellFormed(B))
    && (forall A, B :: A in live && B in live && A != B ==> !Overlap(A, B))
  }

  /** No live block, of whatever level, meets cell `j` of level `l`. */
  ghost predicate FreeCell(live: set<Block>, l: nat, j: nat)
  {
    forall B :: B in live ==> !Touches(B, Min(l, B.level), Up(j, l - Min(l, B.level)))
  }

  /** Cell `j` of level `l` lies on the way from the root down to node `k` of level `d`. */
  ghost predicate OnPath(d: nat, k: nat, l: nat, j: nat)
  {
    l < d && Up(k, d - 1 - l) == j
  }

  lemma TouchesUp(B: Block, m: nat, j: nat, l: nat)
    requires WellFormed(B) && l <= m && Touches(B, m, j)
    ensures Touches(B, l, Up(j, m - l))
  {
    if l < m {
      if m == B.level {
        assert j / 8 == B.cell / 8;
      } else {
        UpUp(B.cell, B.level - m, m - l);
      }
    }
  }

  /** Cells of one node have the same ancestors. */
  lemma Siblings(k: nat, b: nat, b': nat, d: nat)
    requires b < 8 && b' < 8 && d > 0
    ensures Up(8 * k + b, d) == Up(8 * k + b', d) == Up(k, d - 1)
  {
  }

  /** A clear bit of a node that holds some block, or of the root, is a cell nobody uses. */
  lemma ClearBitIsFree(live: set<Block>, l: nat, k: nat, b: nat)
    requires Apart(live) && b < 8
    requires l == 0 || InUse(live, l, k)
    requires !Occupied(live, l, 8 * k + b)
    ensures FreeCell(live, l, 8 * k + b)
  {
    forall B | B in live
      ensures !Touches(B, Min(l, B.level), Up(8 * k + b, l - Min(l, B.level)))
    {
      if B.level < l { NoBlockAbove(live, l, k, b, B); }
    }
  }

  /** A node that holds some block is not itself inside a block of a higher level. */
  lemma NoBlockAbove(live: set<Block>, l: nat, k: nat, b: nat, B: Block)
    requires Apart(live) && b < 8 && InUse(live, l, k)
    requires B in live && B.level < l
    ensures !Touches(B, B.level, Up(8 * k + b, l - B.level))
  {
    var j: nat :| Occupied(live, l, j) && j / 8 == k;
    var A :| A in live && Touches(A, l, j);
    TouchesUp(A, l, j, B.level);
    Siblings(k, b, j % 8, l - B.level);
    assert Min(A.level, B.level) == B.level;
    assert !Overlap(A, B);
  }

  lemma FreeDown(live: set<Block>, l: nat, k: nat, b: nat)
    requires Apart(live) && b < 8 && FreeCell(live, l, k)
    ensures FreeCell(live, l + 1, 8 * k + b)
    ensures !Occupied(live, l + 1, 8 * k + b)
  {
    forall B | B in live
      ensures !Touches(B, Min(l + 1, B.level), Up(8 * k + b, l + 1 - Min(l + 1, B.level)))
    {
      assert !Touches(B, Min(l, B.level), Up(k, l - Min(l, B.level)));
      if B.level <= l {
        Siblings(k, b, b, l + 1 - B.level);
      } else if Touches(B, l + 1, 8 * k + b) {
        TouchesUp(B, l + 1, 8 * k + b, l);
        assert Up(8 * k + b, 1) == k;
      }
    }
    forall B | B in live ensures !Touches(B, l + 1, 8 * k + b) {
      assert !Touches(B, Min(l + 1, B.level), Up(8 * k + b, l + 1 - Min(l + 1, B.level)));
    }
  }

  /** A block made of free cells can join the live set. */
  lemma FreeCellsMakeBlock(live: set<Block>, B: Block)
    requires Apart(live) && WellFormed(B)
    requires forall j :: B.cell <= j < B.cell + B.width ==> FreeCell(live, B.level, j)
    ensures B !in live && Apart(live + {B})
  {
    forall A | A in live
      ensures !Overlap(A, B) && !Overlap(B, A) && A != B
    {
      var m := Min(A.level, B.level);
      assert FreeCell(live, B.level, B.cell);
      assert !Touches(A, m, Up(B.cell, B.level - m));
      assert Touches(B, B.level, B.cell);
      forall j | Touches(B, m, j) ensures !Touches(A, m, j) {
        if m == B.level {
          assert FreeCell(live, B.level, j);
          assert !Touches(A, m, Up(j, B.level - m));
        }
      }
    }
  }

  /** The bits a block sets are the path to its node and its own run of cells. */
  lemma BlockBits(B: Block, l: nat, j: nat)
    requires WellFormed(B)
    ensures Touches(B, l, j) <==>
      OnPath(B.level, B.cell / 8, l, j) || (l == B.level && B.cell <= j < B.cell + B.width)
  {
  }

  lemma PathStep(d: nat, k: nat, b: nat, l: nat, j: nat)
    requires b < 8
    ensures OnPath(d + 1, 8 * k + b, l, j) <==> OnPath(d, k, l, j) || (l == d && j == 8 * k + b)
  {
    if l < d { Siblings(k, b, b, d - l); }
  }

  /** The path to a node that holds some block is already marked. */
  lemma PathAbsorbed(live: set<Block>, d: nat, k: nat)
    requires Apart(live) && InUse(live, d, k)
    ensures forall l, j :: OnPath(d, k, l, j) ==> Occupied(live, l, j)
  {
    var c: nat :| Occupied(live, d, c) && c / 8 == k;
    var B :| B in live && Touches(B, d, c);
    forall l, j | OnPath(d, k, l, j) ensures Occupied(live, l, j) {
      TouchesUp(B, d, c, l);
    }
  }

  lemma {:induction false} SameNodeUp(i: nat, j: nat, d: nat)
    requires i / 8 == j / 8 && d > 0
    ensures Up(i, d) == Up(j, d)
  {
  }

  /** A node that holds some block has its bit set in its parent. */
  lemma UsedNodeHasBit(live: set<Block>, l: nat, j: nat)
    requires Apart(live)
    ensures InUse(live, l + 1, j) ==> Occupied(live, l, j)
  {
    if InUse(live, l + 1, j) {
      var i: nat :| Occupied(live, l + 1, i) && i / 8 == j;
      var B :| B in live && Touches(B, l + 1, i);
      TouchesUp(B, l + 1, i, l);
      assert Up(i, 1) == Up(j, 0) == j;
    }
  }

  // ---------- what is left of a set of blocks when a run of cells, in use by whatever block, is given back

  ghost predicate InRun(B: Block, j: nat) { B.cell <= j < B.cell + B.width }

  /** Two runs of one level share a cell. */
  ghost predicate Meets(A: Block, B: Block)
  {
    A.level == B.level && exists j :: InRun(A, j) && InRun(B, j)
  }

  /** Some cell of the run is in use. */
  ghost predicate Marked(live: set<Block>, B: Block)
  {
    exists j :: InRun(B, j) && Occupied(live, B.level, j)
  }

  /** A live block of a deeper level lies under the run. */
  ghost predicate Under(live: set<Block>, B: Block)
  {
    exists A :: A in live && A.level > B.level && InRun(B, Up(A.cell, A.level - B.level))
  }

  /** The blocks off the run, and the cells the others have outside it, one by one. */
  ghost function Remaining(live: set<Block>, B: Block): set<Block>
  {
    (set A | A in live && !Meets(A, B)) +
    (set A, j | A in live && Meets(A, B) && A.cell <= j < A.cell + A.width && !InRun(B, j) :: Block(B.level, j, 1))
  }

  /** Each block left is part of a live one: it sets no other bits. */
  lemma RemainingPart(live: set<Block>, B: Block, X: Block) returns (A: Block)
    requires Apart(live) && X in Remaining(live, B)
    ensures A in live && A.level == X.level && A.cell <= X.cell && X.cell + X.width <= A.cell + A.width
    ensures if Meets(A, B) then X.level == B.level && X.width == 1 && !InRun(B, X.cell) else X == A
    ensures forall l, j :: Touches(X, l, j) ==> Touches(A, l, j)
  {
    hide Overlap, Meets, Touches;
    if X in live && !Meets(X, B) {
      A := X;
    } else {
      var C, j :| C in live && Meets(C, B) && C.cell <= j < C.cell + C.width && !InRun(B, j) && X == Block(B.level, j, 1);
      assert C.level == B.level by { MeetsAt(C, B); }
      A := C;
      CellTouches(A, j);
    }
  }

  lemma MeetsAt(A: Block, B: Block)
    ensures Meets(A, B) <==> A.level == B.level && A.cell < B.cell + B.width && B.cell < A.cell + A.width && A.width > 0 && B.width > 0
  {
    if A.cell < B.cell + B.width && B.cell < A.cell + A.width && A.width > 0 && B.width > 0 {
      var j := if A.cell < B.cell then B.cell else A.cell;
      assert InRun(A, j) && InRun(B, j);
    }
  }

  /** One cell of a block sets no bits the block does not set. */
  lemma CellTouches(A: Block, c: nat)
    requires WellFormed(A) && InRun(A, c)
    ensures forall l, j :: Touches(Block(A.level, c, 1), l, j) ==> Touches(A, l, j)
  {
    forall l: nat, j: nat | Touches(Block(A.level, c, 1), l, j) ensures Touches(A, l, j) {
      if l < A.level { SameNodeUp(A.cell, c, A.level - l); }
    }
  }

  lemma KeptRemains(live: set<Block>, B: Block, A: Block)
    requires A in live && !Meets(A, B)
    ensures A in Remaining(live, B)
  {
  }

  lemma RemainingApart(live: set<Block>, B: Block)
    requires Apart(live)
    ensures Apart(Remaining(live, B))
  {
    hide Remaining, Meets;
    forall X | X in Remaining(live, B) ensures WellFormed(X) {
      var A := RemainingPart(live, B, X);
    }
    forall X, Y | X in Remaining(live, B) && Y in Remaining(live, B) && X != Y ensures !Overlap(X, Y) {
      var A := RemainingPart(live, B, X);
      var C := RemainingPart(live, B, Y);
      if A != C { assert !Overlap(A, C); }
    }
  }

  lemma BothTouch(A: Block, B: Block, j: nat)
    requires A.level >= B.level && Touches(A, B.level, j) && Touches(B, B.level, j)
    ensures Overlap(A, B)
  {
    assert Min(A.level, B.level) == B.level;
  }

  /** Giving back a live block leaves the other ones. */
  lemma RemainingOfLive(live: set<Block>, B: Block)
    requires Apart(live) && B in live
    ensures Remaining(live, B) == live - {B} && !Under(live, B)
  {
    forall A | A in live && A != B ensures !Meets(A, B) {
      if Meets(A, B) {
        var j :| InRun(A, j) && InRun(B, j);
        BothTouch(A, B, j);
      }
    }
    MeetsAt(B, B);
    forall A | A in live && A.level > B.level ensures !InRun(B, Up(A.cell, A.level - B.level)) {
      if InRun(B, Up(A.cell, A.level - B.level)) { BothTouch(A, B, Up(A.cell, A.level - B.level)); }
    }
  }

  /** With no block under it, giving a run back clears its cells and leaves the path to its node. */
  lemma RemainingBits(live: set<Block>, B: Block, l: nat, j: nat)
    requires Apart(live) && WellFormed(B) && Marked(live, B) && !Under(live, B)
    ensures Occupied(live, l, j) && !(l == B.level && InRun(B, j))
      <==> Occupied(Remaining(live, B), l, j) || OnPath(B.level, B.cell / 8, l, j)
  {
    hide Overlap, Remaining, Meets, Under;
    if Occupied(Remaining(live, B), l, j) {
      var X :| X in Remaining(live, B) && Touches(X, l, j);
      var A := RemainingPart(live, B, X);
      assert Touches(A, l, j);
      if l == B.level && InRun(B, j) { NotInRun(live, B, A, X, j); }
    }
    if OnPath(B.level, B.cell / 8, l, j) { PathOfMarked(live, B, l, j); }
    if Occupied(live, l, j) && !(l == B.level && InRun(B, j)) {
      var A :| A in live && Touches(A, l, j);
      StillTouched(live, B, A, l, j);
    }
  }

  lemma PathOfMarked(live: set<Block>, B: Block, l: nat, j: nat)
    requires Apart(live) && WellFormed(B) && Marked(live, B) && OnPath(B.level, B.cell / 8, l, j)
    ensures Occupied(live, l, j)
  {
    var i :| InRun(B, i) && Occupied(live, B.level, i);
    var A :| A in live && Touches(A, B.level, i);
    TouchesUp(A, B.level, i, l);
    SameNodeUp(B.cell, i, B.level - l);
  }

  /** No block left sets a bit of the run. */
  lemma NotInRun(live: set<Block>, B: Block, A: Block, X: Block, j: nat)
    requires A in live && !Under(live, B) && A.level == X.level && Touches(A, B.level, j) && Touches(X, B.level, j)
    requires if Meets(A, B) then X.level == B.level && X.width == 1 && !InRun(B, X.cell) else X == A
    ensures !InRun(B, j)
  {
    if InRun(B, j) && A.level == B.level { assert InRun(A, j); }
  }

  /** Off the run, what a live block sets is still set, or is on the path. */
  lemma StillTouched(live: set<Block>, B: Block, A: Block, l: nat, j: nat)
    requires Apart(live) && WellFormed(B) && A in live && Touches(A, l, j) && !(l == B.level && InRun(B, j))
    ensures Occupied(Remaining(live, B), l, j) || OnPath(B.level, B.cell / 8, l, j)
  {
    hide Overlap, Meets;
    MeetsAt(A, B);
    if !Meets(A, B) {
      assert A in Remaining(live, B);
    } else if l < B.level {
      SameNodeUp(A.cell, B.cell, B.level - l);
    } else {
      assert Block(B.level, j, 1) in Remaining(live, B) && Touches(Block(B.level, j, 1), l, j);
    }
  }

  /** Above an empty node, a bit belongs to nobody once the run below is given back. */
  lemma EmptyNodeClearsParent(live: set<Block>, B: Block, d: nat, k: nat)
    requires Apart(live) && WellFormed(B) && Marked(live, B) && d < B.level && Touches(B, d, k)
    requires !InUse(Remaining(live, B), d + 1, k)
    ensures !Occupied(Remaining(live, B), d, k)
  {
    hide Remaining, Meets;
    var i :| InRun(B, i) && Occupied(live, B.level, i);
    var C :| C in live && Touches(C, B.level, i);
    TouchesUp(C, B.level, i, d);
    SameNodeUp(B.cell, i, B.level - d);
    forall X | X in Remaining(live, B) ensures !Touches(X, d, k) {
      var A := RemainingPart(live, B, X);
      if X.level > d {
        var c := Up(X.cell, X.level - d - 1);
        UpParent(X.cell, X.level - d - 1);
        assert Touches(X, d + 1, c);
        assert Occupied(Remaining(live, B), d + 1, c);
      } else if Touches(X, d, k) {
        BothTouch(C, A, k);
      }
    }
  }
}
