/**
 * The buddy allocator over an implicit binary tree (include/sigma/buddy_array_allocator.hpp).
 *
 * The tree is stored in a byte vector: node `n` has children `2n+1` and `2n+2`, the root
 * covers the whole range of `block_count` blocks and every child covers half of its
 * parent.  Bit 0 of a node's byte means "used" (handed out whole), bit 1 means "split"
 * (something below it was handed out or searched).  A failed request is reported with
 * the size_t sentinel `(size_t)-1`.
 */
module Buddy {

  const SIZE_MAX: nat := 0xFFFF_FFFF_FFFF_FFFF
  /** What `allocate` returns when no block can be handed out: `(size_t)-1`. */
  const NOT_FOUND: nat := SIZE_MAX
  /** The largest block count for which `2 * block_count - 1` nodes still fit in a size_t. */
  const MAX_BLOCK_COUNT: nat := 0x8000_0000_0000_0000

  // ---------------------------------------------------------------------------
  // Node flags (IS_USED / SET_USED / IS_SPLIT / SET_SPLIT)
  // ---------------------------------------------------------------------------

  predicate IsUsed(b: bv8) { b & 1 != 0 }

  predicate IsSplit(b: bv8) { b & 2 != 0 }

  /** SET_USED turns on the used bit and leaves the split bit alone. */
  function SetUsed(b: bv8): (r: bv8)
    ensures IsUsed(r) && (IsSplit(r) <==> IsSplit(b))
  {
    b | 1
  }

  /** SET_SPLIT turns on the split bit and leaves the used bit alone. */
  function SetSplit(b: bv8): (r: bv8)
    ensures IsSplit(r) && (IsUsed(r) <==> IsUsed(b))
  {
    b | 2
  }

  // ---------------------------------------------------------------------------
  // Powers of two and `order`
  // ---------------------------------------------------------------------------

  function Pow2(k: nat): (r: nat)
    ensures r >= 1
  {
    if k == 0 then 1 else 2 * Pow2(k - 1)
  }

  predicate IsPow2(n: nat)
  {
    n == 1 || (n >= 2 && n % 2 == 0 && IsPow2(n / 2))
  }

  lemma {:induction false} Pow2Monotone(j: nat, k: nat)
    ensures j <= k ==> Pow2(j) <= Pow2(k)
    ensures j < k ==> Pow2(j) < Pow2(k)
    decreases k
  {
    if j < k {
      Pow2Monotone(j, k - 1);
    }
  }

  lemma {:induction false} Log2Of(n: nat) returns (k: nat)
    requires IsPow2(n)
    ensures Pow2(k) == n
  {
    if n == 1 {
      k := 0;
    } else {
      var k' := Log2Of(n / 2);
      k := k' + 1;
    }
  }

  /**
   * `order(blocks)`, written in the source as ceil(log2(blocks)) over floating point,
   * computed here exactly: 2^k covers `blocks` and 2^(k-1) does not.
   */
  function Order(blocks: nat): (k: nat)
    requires blocks >= 1
    ensures Pow2(k) >= blocks
    ensures k == 0 || Pow2(k - 1) < blocks
    decreases blocks
  {
    if blocks == 1 then 0 else 1 + Order((blocks + 1) / 2)
  }

  /** No smaller exponent covers `blocks`: `order` is the least k with 2^k >= blocks. */
  lemma OrderIsLeast(blocks: nat, j: nat)
    requires blocks >= 1 && Pow2(j) >= blocks
    ensures Order(blocks) <= j
  {
    var k := Order(blocks);
    if k >= 1 {
      Pow2Monotone(j, k - 1);
    }
  }

  /** A power-of-two node size with size/2 < blocks <= size is exactly 2^order(blocks). */
  lemma TakenSize(size: nat, blocks: nat)
    requires IsPow2(size) && size / 2 < blocks <= size
    ensures size == Pow2(Order(blocks))
  {
    var k := Log2Of(size);
    var o := Order(blocks);
    if k >= 1 {
      Pow2Monotone(o, k - 1);
    }
    if o >= 1 {
      Pow2Monotone(k, o - 1);
    }
  }

  // ---------------------------------------------------------------------------
  // Tree shape of the node array
  // ---------------------------------------------------------------------------

  /**
   * Node `n` of size `size` sits where the recursion of `allocate_` can reach it in an
   * array of `len` nodes.  Inductive: it holds for the root of a `2B - 1` array and for
   * both children of any node it holds for.
   */
  ghost predicate WellPlaced(len: nat, n: nat, size: nat)
  {
    IsPow2(size) && (n + 2) * size <= len + 1
  }

  lemma Placement(len: nat, n: nat, size: nat)
    requires WellPlaced(len, n, size)
    ensures n < len
    ensures size >= 2 ==> 2 * n + 2 < len && WellPlaced(len, 2 * n + 1, size / 2)
                                           && WellPlaced(len, 2 * n + 2, size / 2)
  {
    if size >= 2 {
      var h := size / 2;
      assert size == 2 * h;
      assert (n + 2) * size == (2 * n + 4) * h;
      assert (2 * n + 3) * h <= (2 * n + 4) * h;
      assert 2 * (n + 2) <= (n + 2) * size;
    }
  }

  /** Index `i` lies in the subtree rooted at node `n` (walking parents `(i-1)/2` up from `i`). */
  predicate InSubtree(i: nat, n: nat)
    decreases i
  {
    i == n || (i > n && InSubtree((i - 1) / 2, n))
  }

  lemma {:induction false} ChildSubtree(i: nat, n: nat, c: nat)
    requires c == 2 * n + 1 || c == 2 * n + 2
    requires InSubtree(i, c)
    ensures InSubtree(i, n)
    decreases i
  {
    if i != c {
      ChildSubtree((i - 1) / 2, n, c);
    }
  }

  /** The subtrees of the two children of a node share no index. */
  lemma {:induction false} SiblingsApart(i: nat, n: nat)
    ensures !(InSubtree(i, 2 * n + 1) && InSubtree(i, 2 * n + 2))
    decreases i
  {
    if i > 2 * n + 2 {
      SiblingsApart((i - 1) / 2, n);
    }
  }

  /** The flags of the subtree rooted at node `n`, as a tree. */
  datatype Tree = Leaf(flags: bv8) | Branch(flags: bv8, left: Tree, right: Tree)

  ghost function View(a: seq<bv8>, n: nat, size: nat): Tree
    requires WellPlaced(|a|, n, size)
    decreases size
  {
    Placement(|a|, n, size);
    if size >= 2 then Branch(a[n], View(a, 2 * n + 1, size / 2), View(a, 2 * n + 2, size / 2))
    else Leaf(a[n])
  }

  ghost predicate AgreeWithin(a: seq<bv8>, b: seq<bv8>, n: nat)
  {
    |a| == |b| && forall i :: 0 <= i < |a| && InSubtree(i, n) ==> a[i] == b[i]
  }

  ghost predicate AgreeOutside(a: seq<bv8>, b: seq<bv8>, n: nat)
  {
    |a| == |b| && forall i :: 0 <= i < |a| && !InSubtree(i, n) ==> a[i] == b[i]
  }

  /** The view of a subtree depends on the bytes of that subtree only. */
  lemma {:induction false} ViewFrame(a: seq<bv8>, b: seq<bv8>, n: nat, size: nat)
    requires WellPlaced(|a|, n, size) && AgreeWithin(a, b, n)
    ensures View(a, n, size) == View(b, n, size)
    decreases size
  {
    Placement(|a|, n, size);
    if size >= 2 {
      forall c, i | (c == 2 * n + 1 || c == 2 * n + 2) && 0 <= i < |a| && InSubtree(i, c)
        ensures a[i] == b[i]
      {
        ChildSubtree(i, n, c);
      }
      ViewFrame(a, b, 2 * n + 1, size / 2);
      ViewFrame(a, b, 2 * n + 2, size / 2);
    }
  }

  /** A change outside the subtree of one child leaves the view of the other child alone. */
  lemma SiblingView(a: seq<bv8>, b: seq<bv8>, n: nat, c: nat, size: nat)
    requires size >= 2 && WellPlaced(|a|, n, size)
    requires c == 2 * n + 1 || c == 2 * n + 2
    requires AgreeOutside(a, b, 4 * n + 3 - c)
    ensures WellPlaced(|a|, c, size / 2)
    ensures View(a, c, size / 2) == View(b, c, size / 2)
  {
    Placement(|a|, n, size);
    forall i | 0 <= i < |a| && InSubtree(i, c)
      ensures a[i] == b[i]
    {
      SiblingsApart(i, n);
    }
    ViewFrame(a, b, c, size / 2);
  }

  /** Changing node `n` alone leaves the views of both its children alone. */
  lemma ChildViewsAfterMark(a: seq<bv8>, n: nat, size: nat, x: bv8)
    requires size >= 2 && WellPlaced(|a|, n, size)
    ensures n < |a|
    ensures View(a[n := x], 2 * n + 1, size / 2) == View(a, 2 * n + 1, size / 2)
    ensures View(a[n := x], 2 * n + 2, size / 2) == View(a, 2 * n + 2, size / 2)
  {
    Placement(|a|, n, size);
    ViewFrame(a, a[n := x], 2 * n + 1, size / 2);
    ViewFrame(a, a[n := x], 2 * n + 2, size / 2);
  }

  // ---------------------------------------------------------------------------
  // What a tree of flags means
  // ---------------------------------------------------------------------------

  ghost predicate Within(i: nat, offset: nat, size: nat)
  {
    offset <= i < offset + size
  }

  ghost function Range(offset: nat, size: nat): set<nat>
  {
    set i: nat | i < offset + size && Within(i, offset, size)
  }

  /** The blocks handed out below a node: the range of every used node that has no used ancestor. */
  ghost function Covered(t: Tree, left: nat, size: nat): set<nat>
  {
    if IsUsed(t.flags) then Range(left, size)
    else match t
      case Leaf(_) => {}
      case Branch(_, l, r) => Covered(l, left, size / 2) + Covered(r, left + size / 2, size / 2)
  }

  /** Neither used nor split anywhere in the subtree: the state the constructor leaves. */
  ghost predicate Clean(t: Tree)
  {
    !IsUsed(t.flags) && !IsSplit(t.flags) && (t.Branch? ==> Clean(t.left) && Clean(t.right))
  }

  /**
   * The allocator's invariant: below a used node nothing matters (the search never
   * enters it); a free node that is not split has a clean subtree; a free split node
   * has children that satisfy the invariant.
   */
  ghost predicate Inv(t: Tree)
  {
    if IsUsed(t.flags) then true
    else if IsSplit(t.flags) then (t.Branch? ==> Inv(t.left) && Inv(t.right))
    else Clean(t)
  }

  /** The offsets of the nodes a request for `blocks` blocks could be given right now. */
  ghost function Fits(t: Tree, blocks: nat, left: nat, size: nat): set<nat>
  {
    if IsUsed(t.flags) || blocks > size then {}
    else if size / 2 < blocks then (if IsSplit(t.flags) then {} else {left})
    else match t
      case Leaf(_) => {}
      case Branch(_, l, r) => Fits(l, blocks, left, size / 2) + Fits(r, blocks, left + size / 2, size / 2)
  }

  lemma {:induction false} CleanIsEmpty(t: Tree, left: nat, size: nat)
    requires Clean(t)
    ensures Inv(t) && Covered(t, left, size) == {}
  {
    match t
    case Leaf(_) =>
    case Branch(_, l, r) =>
      CleanIsEmpty(l, left, size / 2);
      CleanIsEmpty(r, left + size / 2, size / 2);
  }

  lemma {:induction false} CoveredWithin(t: Tree, left: nat, size: nat)
    ensures Covered(t, left, size) <= Range(left, size)
  {
    if !IsUsed(t.flags) && t.Branch? {
      CoveredWithin(t.left, left, size / 2);
      CoveredWithin(t.right, left + size / 2, size / 2);
    }
  }

  lemma {:induction false} FitsWithin(t: Tree, blocks: nat, left: nat, size: nat)
    ensures forall x :: x in Fits(t, blocks, left, size) ==> left <= x < left + size
  {
    if !IsUsed(t.flags) && blocks <= size && blocks <= size / 2 && t.Branch? {
      FitsWithin(t.left, blocks, left, size / 2);
      FitsWithin(t.right, blocks, left + size / 2, size / 2);
    }
  }

  /** An all-zero node array is clean at every well-placed node. */
  lemma {:induction false} ZeroIsClean(a: seq<bv8>, n: nat, size: nat)
    requires WellPlaced(|a|, n, size)
    requires forall i :: 0 <= i < |a| ==> a[i] == 0
    ensures Clean(View(a, n, size))
    decreases size
  {
    Placement(|a|, n, size);
    if size >= 2 {
      ZeroIsClean(a, 2 * n + 1, size / 2);
      ZeroIsClean(a, 2 * n + 2, size / 2);
    }
  }

  // ---------------------------------------------------------------------------
  // allocate_ as a function of the node array
  // ---------------------------------------------------------------------------

  /**
   * One call of `allocate_(blocks, n, left, size)`: the new node array and the offset
   * returned.  A used node refuses; a request larger than the node refuses; a node
   * whose half is too small for the request is taken whole unless it is split;
   * otherwise the node is marked split and the left child is searched before the right.
   */
  function Alloc(a: seq<bv8>, blocks: nat, n: nat, left: nat, size: nat): (res: (seq<bv8>, nat))
    requires blocks >= 1 && WellPlaced(|a|, n, size)
    ensures |res.0| == |a|
    decreases size
  {
    Placement(|a|, n, size);
    if IsUsed(a[n]) then (a, NOT_FOUND)
    else if blocks > size then (a, NOT_FOUND)
    else if size / 2 < blocks then
      if IsSplit(a[n]) then (a, NOT_FOUND) else (a[n := SetUsed(a[n])], left)
    else
      var marked := a[n := SetSplit(a[n])];
      var (after, l) := Alloc(marked, blocks, 2 * n + 1, left, size / 2);
      if l != NOT_FOUND then (after, l)
      else Alloc(after, blocks, 2 * n + 2, left + size / 2, size / 2)
  }

  /** `allocate_` only writes bytes of the subtree it was called on. */
  lemma {:induction false} AllocFrame(a: seq<bv8>, blocks: nat, n: nat, left: nat, size: nat)
    requires blocks >= 1 && WellPlaced(|a|, n, size)
    ensures AgreeOutside(a, Alloc(a, blocks, n, left, size).0, n)
    decreases size
  {
    Placement(|a|, n, size);
    if !IsUsed(a[n]) && blocks <= size / 2 {
      var marked := a[n := SetSplit(a[n])];
      var (after, l) := Alloc(marked, blocks, 2 * n + 1, left, size / 2);
      AllocFrame(marked, blocks, 2 * n + 1, left, size / 2);
      AllocFrame(after, blocks, 2 * n + 2, left + size / 2, size / 2);
      forall c, i | (c == 2 * n + 1 || c == 2 * n + 2) && 0 <= i < |a| && InSubtree(i, c)
        ensures InSubtree(i, n)
      {
        ChildSubtree(i, n, c);
      }
    }
  }

  /** Flags are only ever turned on: nothing marked used or split is rolled back, not even on failure. */
  lemma {:induction false} AllocMonotone(a: seq<bv8>, blocks: nat, n: nat, left: nat, size: nat)
    requires blocks >= 1 && WellPlaced(|a|, n, size)
    ensures var b := Alloc(a, blocks, n, left, size).0;
      forall i :: 0 <= i < |a| ==> (IsUsed(a[i]) ==> IsUsed(b[i])) && (IsSplit(a[i]) ==> IsSplit(b[i]))
    decreases size
  {
    Placement(|a|, n, size);
    if !IsUsed(a[n]) && blocks <= size / 2 {
      var marked := a[n := SetSplit(a[n])];
      var (after, l) := Alloc(marked, blocks, 2 * n + 1, left, size / 2);
      AllocMonotone(marked, blocks, 2 * n + 1, left, size / 2);
      AllocMonotone(after, blocks, 2 * n + 2, left + size / 2, size / 2);
    }
  }

  /** `r` is the first fit among the candidate offsets `f`, or `NOT_FOUND` when there is none. */
  ghost predicate FirstOf(f: set<nat>, r: nat)
  {
    (r == NOT_FOUND <==> f == {}) &&
    (r != NOT_FOUND ==> r in f && forall x :: x in f ==> r <= x)
  }

  /**
   * First fit: the search fails exactly when no node could take the request, and
   * otherwise returns the lowest offset among all nodes that could.
   */
  lemma {:induction false} AllocFirstFit(a: seq<bv8>, blocks: nat, n: nat, left: nat, size: nat)
    requires blocks >= 1 && WellPlaced(|a|, n, size) && left + size <= NOT_FOUND
    ensures FirstOf(Fits(View(a, n, size), blocks, left, size), Alloc(a, blocks, n, left, size).1)
    decreases size, 1
  {
    Placement(|a|, n, size);
    if !IsUsed(a[n]) && blocks <= size / 2 {
      var h := size / 2;
      Unfold(a, n, size);
      var marked := a[n := SetSplit(a[n])];
      var step := Alloc(marked, blocks, 2 * n + 1, left, h);
      var res := if step.1 != NOT_FOUND then step.1 else Alloc(step.0, blocks, 2 * n + 2, left + h, h).1;
      assert Alloc(a, blocks, n, left, size).1 == res;
      LeftFirstFit(a, blocks, n, left, size);
      if step.1 == NOT_FOUND {
        AllocFrame(marked, blocks, 2 * n + 1, left, h);
        RightFirstFit(a, step.0, blocks, n, left, size);
      }
      FitsWithin(View(a, 2 * n + 1, h), blocks, left, h);
      FitsWithin(View(a, 2 * n + 2, h), blocks, left + h, h);
      var f1, f2 := Fits(View(a, 2 * n + 1, h), blocks, left, h), Fits(View(a, 2 * n + 2, h), blocks, left + h, h);
      assert Fits(View(a, n, size), blocks, left, size) == f1 + f2;
      JoinFirstFit(f1, f2, step.1, res, left, h);
    }
  }

  /** The left child's search, after the node is marked split, finds the left child's first fit. */
  lemma LeftFirstFit(a: seq<bv8>, blocks: nat, n: nat, left: nat, size: nat)
    requires blocks >= 1 && size >= 2 && WellPlaced(|a|, n, size) && left + size <= NOT_FOUND
    ensures n < |a| && WellPlaced(|a|, 2 * n + 1, size / 2)
    ensures FirstOf(Fits(View(a, 2 * n + 1, size / 2), blocks, left, size / 2),
                    Alloc(a[n := SetSplit(a[n])], blocks, 2 * n + 1, left, size / 2).1)
    decreases size, 0
  {
    var h := size / 2;
    var marked := a[n := SetSplit(a[n])];
    ChildViewsAfterMark(a, n, size, SetSplit(a[n]));
    Placement(|a|, n, size);
    AllocFirstFit(marked, blocks, 2 * n + 1, left, h);
    FirstFitOfSameTree(View(marked, 2 * n + 1, h), View(a, 2 * n + 1, h), blocks, left, h,
                       Alloc(marked, blocks, 2 * n + 1, left, h).1);
  }

  /**
   * The right child's search runs on the array the left child's search left behind,
   * which differs from the marked array only inside the left subtree, and finds the
   * first fit of the right child as it was before the search began.
   */
  lemma RightFirstFit(a: seq<bv8>, after: seq<bv8>, blocks: nat, n: nat, left: nat, size: nat)
    requires blocks >= 1 && size >= 2 && WellPlaced(|a|, n, size) && left + size <= NOT_FOUND && n < |a|
    requires AgreeOutside(a[n := SetSplit(a[n])], after, 2 * n + 1)
    ensures WellPlaced(|after|, 2 * n + 2, size / 2) && WellPlaced(|a|, 2 * n + 2, size / 2)
    ensures FirstOf(Fits(View(a, 2 * n + 2, size / 2), blocks, left + size / 2, size / 2),
                    Alloc(after, blocks, 2 * n + 2, left + size / 2, size / 2).1)
    decreases size, 0
  {
    var h := size / 2;
    var marked := a[n := SetSplit(a[n])];
    Placement(|a|, n, size);
    ChildViewsAfterMark(a, n, size, SetSplit(a[n]));
    SiblingView(marked, after, n, 2 * n + 2, size);
    AllocFirstFit(after, blocks, 2 * n + 2, left + h, h);
    FirstFitOfSameTree(View(after, 2 * n + 2, h), View(a, 2 * n + 2, h), blocks, left + h, h,
                       Alloc(after, blocks, 2 * n + 2, left + h, h).1);
  }

  lemma FirstFitOfSameTree(t: Tree, u: Tree, blocks: nat, left: nat, size: nat, r: nat)
    requires t == u && FirstOf(Fits(t, blocks, left, size), r)
    ensures FirstOf(Fits(u, blocks, left, size), r)
  {
  }

  /** First fit over two halves: the left half's first fit if it has one, else the right half's. */
  lemma JoinFirstFit(f1: set<nat>, f2: set<nat>, l: nat, r: nat, left: nat, h: nat)
    requires f1 <= Range(left, h) && f2 <= Range(left + h, h)
    requires FirstOf(f1, l) && (l == NOT_FOUND ==> FirstOf(f2, r)) && (l != NOT_FOUND ==> r == l)
    ensures FirstOf(f1 + f2, r)
  {
    if l != NOT_FOUND {
      forall x | x in f2 ensures l <= x {
        assert Within(l, left, h) && Within(x, left + h, h);
      }
    }
  }

  /**
   * What a search does to the tree below the node it searched: the invariant still
   * holds; a failure hands out nothing; a success hands out `s` blocks starting at
   * `r` that were free before, and nothing else.
   */
  ghost predicate Outcome(before: Tree, after: Tree, r: nat, s: nat, left: nat, size: nat)
  {
    Inv(after) &&
    (r == NOT_FOUND ==> Covered(after, left, size) == Covered(before, left, size)) &&
    (r != NOT_FOUND ==> Range(r, s) !! Covered(before, left, size) &&
                        Covered(after, left, size) == Covered(before, left, size) + Range(r, s))
  }

  /**
   * The invariant is preserved, and a success hands out exactly the 2^order(blocks)
   * blocks starting at the returned offset, none of which was handed out before.
   * A failure hands out nothing.
   */
  lemma {:induction false} AllocCovers(a: seq<bv8>, blocks: nat, n: nat, left: nat, size: nat)
    requires blocks >= 1 && WellPlaced(|a|, n, size) && left + size <= NOT_FOUND
    requires Inv(View(a, n, size))
    ensures var (b, r) := Alloc(a, blocks, n, left, size);
      |b| == |a| && Outcome(View(a, n, size), View(b, n, size), r, Pow2(Order(blocks)), left, size)
    decreases size, 2
  {
    Placement(|a|, n, size);
    if IsUsed(a[n]) || blocks > size {
    } else if size / 2 < blocks {
      if !IsSplit(a[n]) {
        TakenSize(size, blocks);
        CleanIsEmpty(View(a, n, size), left, size);
      }
    } else {
      DescendCovers(a, blocks, n, left, size);
    }
  }

  /** The view of node `n` is built from its own flags and its children's views. */
  lemma Unfold(a: seq<bv8>, n: nat, size: nat)
    requires size >= 2 && WellPlaced(|a|, n, size)
    ensures n < |a| && WellPlaced(|a|, 2 * n + 1, size / 2) && WellPlaced(|a|, 2 * n + 2, size / 2)
    ensures View(a, n, size) == Branch(a[n], View(a, 2 * n + 1, size / 2), View(a, 2 * n + 2, size / 2))
  {
    Placement(|a|, n, size);
  }

  /** A free node's children satisfy the invariant when the node does. */
  lemma ChildrenInv(t: Tree)
    requires Inv(t) && !IsUsed(t.flags) && t.Branch?
    ensures Inv(t.left) && Inv(t.right)
  {
    if !IsSplit(t.flags) {
      CleanIsEmpty(t.left, 0, 0);
      CleanIsEmpty(t.right, 0, 0);
    }
  }

  /** Descending: mark the node split, then search the left child and, failing that, the right. */
  lemma {:induction false} DescendCovers(a: seq<bv8>, blocks: nat, n: nat, left: nat, size: nat)
    requires blocks >= 1 && WellPlaced(|a|, n, size) && left + size <= NOT_FOUND
    requires Inv(View(a, n, size))
    requires n < |a| && !IsUsed(a[n]) && blocks <= size / 2
    ensures var (b, r) := Alloc(a, blocks, n, left, size);
      |b| == |a| && Outcome(View(a, n, size), View(b, n, size), r, Pow2(Order(blocks)), left, size)
    decreases size, 1
  {
    var h, s := size / 2, Pow2(Order(blocks));
    Unfold(a, n, size);
    ChildrenInv(View(a, n, size));
    var marked := a[n := SetSplit(a[n])];
    ChildViewsAfterMark(a, n, size, SetSplit(a[n]));
    var step := Alloc(marked, blocks, 2 * n + 1, left, h);
    AllocCovers(marked, blocks, 2 * n + 1, left, h);
    LeftSearchView(marked, blocks, n, left, size);
    Unfold(marked, n, size);
    if step.1 != NOT_FOUND {
      JoinLeft(a[n], View(a, 2 * n + 1, h), View(a, 2 * n + 2, h), marked[n], View(step.0, 2 * n + 1, h), step.1, s, left, size);
    } else {
      DescendRight(a, step.0, blocks, n, left, size);
    }
  }

  /** The left child refused: the search of the right child decides the outcome. */
  lemma {:induction false} DescendRight(a: seq<bv8>, mid: seq<bv8>, blocks: nat, n: nat, left: nat, size: nat)
    requires blocks >= 1 && size >= 2 && WellPlaced(|a|, n, size) && left + size <= NOT_FOUND
    requires |mid| == |a| && n < |a| && !IsUsed(a[n]) && blocks <= size / 2
    requires mid[n] == SetSplit(a[n])
    requires WellPlaced(|a|, 2 * n + 1, size / 2) && WellPlaced(|a|, 2 * n + 2, size / 2)
    requires View(a, n, size) == Branch(a[n], View(a, 2 * n + 1, size / 2), View(a, 2 * n + 2, size / 2))
    requires Inv(View(a, 2 * n + 2, size / 2)) && View(mid, 2 * n + 2, size / 2) == View(a, 2 * n + 2, size / 2)
    requires Outcome(View(a, 2 * n + 1, size / 2), View(mid, 2 * n + 1, size / 2), NOT_FOUND, Pow2(Order(blocks)), left, size / 2)
    ensures var res := Alloc(mid, blocks, 2 * n + 2, left + size / 2, size / 2);
      Outcome(View(a, n, size), View(res.0, n, size), res.1, Pow2(Order(blocks)), left, size)
    decreases size, 0
  {
    var h := size / 2;
    var res := Alloc(mid, blocks, 2 * n + 2, left + h, h);
    AllocCovers(mid, blocks, 2 * n + 2, left + h, h);
    RightSearchView(mid, blocks, n, left, size);
    JoinRight(a[n], View(a, 2 * n + 1, h), View(a, 2 * n + 2, h),
              mid[n], View(mid, 2 * n + 1, h), View(res.0, 2 * n + 2, h), res.1, Pow2(Order(blocks)), left, size);
  }

  /** A change confined to one child's subtree leaves the node and the other child as they were. */
  lemma ChildChangeView(a: seq<bv8>, b: seq<bv8>, n: nat, c: nat, size: nat)
    requires size >= 2 && WellPlaced(|a|, n, size)
    requires c == 2 * n + 1 || c == 2 * n + 2
    requires AgreeOutside(a, b, c)
    ensures WellPlaced(|a|, c, size / 2) && n < |a|
    ensures c == 2 * n + 1 ==> View(b, n, size) == Branch(a[n], View(b, c, size / 2), View(a, 2 * n + 2, size / 2))
    ensures c == 2 * n + 2 ==> View(b, n, size) == Branch(a[n], View(a, 2 * n + 1, size / 2), View(b, c, size / 2))
  {
    Unfold(a, n, size);
    SiblingView(a, b, n, 4 * n + 3 - c, size);
    assert b[n] == a[n];
    Unfold(b, n, size);
  }

  /** Searching the right child leaves the node and its left child as they were. */
  lemma RightSearchView(a: seq<bv8>, blocks: nat, n: nat, left: nat, size: nat)
    requires blocks >= 1 && size >= 2 && WellPlaced(|a|, n, size)
    ensures WellPlaced(|a|, 2 * n + 2, size / 2)
    ensures var b := Alloc(a, blocks, 2 * n + 2, left + size / 2, size / 2).0;
      n < |a| && View(b, n, size) == Branch(a[n], View(a, 2 * n + 1, size / 2), View(b, 2 * n + 2, size / 2))
  {
    Placement(|a|, n, size);
    AllocFrame(a, blocks, 2 * n + 2, left + size / 2, size / 2);
    ChildChangeView(a, Alloc(a, blocks, 2 * n + 2, left + size / 2, size / 2).0, n, 2 * n + 2, size);
  }

  /** Searching the left child leaves the node and its right child as they were. */
  lemma LeftSearchView(a: seq<bv8>, blocks: nat, n: nat, left: nat, size: nat)
    requires blocks >= 1 && size >= 2 && WellPlaced(|a|, n, size)
    ensures WellPlaced(|a|, 2 * n + 1, size / 2)
    ensures var b := Alloc(a, blocks, 2 * n + 1, left, size / 2).0;
      n < |a| && View(b, n, size) == Branch(a[n], View(b, 2 * n + 1, size / 2), View(a, 2 * n + 2, size / 2))
  {
    Placement(|a|, n, size);
    AllocFrame(a, blocks, 2 * n + 1, left, size / 2);
    ChildChangeView(a, Alloc(a, blocks, 2 * n + 1, left, size / 2).0, n, 2 * n + 1, size);
  }

  /** The blocks handed out below a free node are those handed out below its two halves. */
  lemma CoveredBranch(f: bv8, l: Tree, r: Tree, left: nat, size: nat)
    requires !IsUsed(f)
    ensures Covered(Branch(f, l, r), left, size) == Covered(l, left, size / 2) + Covered(r, left + size / 2, size / 2)
  {
  }

  /** Blocks inside one half are outside the other. */
  lemma ApartInHalves(u: set<nat>, v: set<nat>, left: nat, h: nat)
    requires u <= Range(left, h) && v <= Range(left + h, h)
    ensures u !! v
  {
    forall i | i in u
      ensures i !in v
    {
      assert Within(i, left, h);
    }
  }

  /** A search that succeeded in the left child, seen from the parent it marked split. */
  lemma JoinLeft(x: bv8, la: Tree, ra: Tree, y: bv8, lb: Tree, r: nat, s: nat, left: nat, size: nat)
    requires !IsUsed(x) && !IsUsed(y) && IsSplit(y) && Inv(ra) && r != NOT_FOUND
    requires Outcome(la, lb, r, s, left, size / 2)
    ensures Outcome(Branch(x, la, ra), Branch(y, lb, ra), r, s, left, size)
  {
    var h := size / 2;
    CoveredBranch(x, la, ra, left, size);
    CoveredBranch(y, lb, ra, left, size);
    CoveredWithin(ra, left + h, h);
    CoveredWithin(lb, left, h);
    ApartInHalves(Range(r, s), Covered(ra, left + h, h), left, h);
  }

  /** A search that went on to the right child, seen from the parent it marked split. */
  lemma JoinRight(x: bv8, la: Tree, ra: Tree, y: bv8, lb: Tree, rb: Tree, r: nat, s: nat, left: nat, size: nat)
    requires !IsUsed(x) && !IsUsed(y) && IsSplit(y)
    requires Outcome(la, lb, NOT_FOUND, s, left, size / 2)
    requires Outcome(ra, rb, r, s, left + size / 2, size / 2)
    ensures Outcome(Branch(x, la, ra), Branch(y, lb, rb), r, s, left, size)
  {
    var h := size / 2;
    CoveredBranch(x, la, ra, left, size);
    CoveredBranch(y, lb, rb, left, size);
    if r != NOT_FOUND {
      CoveredWithin(la, left, h);
      CoveredWithin(rb, left + h, h);
      ApartInHalves(Covered(la, left, h), Range(r, s), left, h);
    }
  }

  /** Splitting an aligned range in two leaves two aligned halves. */
  lemma HalfMultiples(k: nat, size: nat)
    requires size >= 2 && size % 2 == 0
    ensures k * size == (2 * k) * (size / 2)
    ensures k * size + size / 2 == (2 * k + 1) * (size / 2)
  {
    var h := size / 2;
    assert size == 2 * h;
    calc {
      k * size;
      k * (2 * h);
      (2 * k) * h;
    }
  }

  lemma MulBounds(s: int, k: int)
    ensures s >= 1 && k >= 1 ==> s * k >= s
    ensures s >= 1 && k <= -1 ==> s * k <= -s
  {
    if s >= 1 && k >= 1 {
      assert s * k == s + s * (k - 1);
    } else if s >= 1 && k <= -1 {
      assert s * k == -s - s * (-k - 1);
    }
  }

  lemma MultipleMod(j: nat, s: nat)
    requires s >= 1
    ensures (j * s) % s == 0
  {
    var x := j * s;
    var k := j - x / s;
    assert s * k == x % s;
    MulBounds(s, k);
  }

  /** The offset handed out is a multiple of the size of the node taken. */
  lemma {:induction false} AllocAligned(a: seq<bv8>, blocks: nat, n: nat, left: nat, size: nat, k: nat)
    requires blocks >= 1 && WellPlaced(|a|, n, size) && left == k * size
    ensures var r := Alloc(a, blocks, n, left, size).1;
      r != NOT_FOUND ==> r % Pow2(Order(blocks)) == 0
    decreases size
  {
    Placement(|a|, n, size);
    if IsUsed(a[n]) || blocks > size {
    } else if size / 2 < blocks {
      TakenSize(size, blocks);
      MultipleMod(k, size);
    } else {
      var h := size / 2;
      HalfMultiples(k, size);
      var marked := a[n := SetSplit(a[n])];
      var (mid, l) := Alloc(marked, blocks, 2 * n + 1, left, h);
      AllocAligned(marked, blocks, 2 * n + 1, left, h, 2 * k);
      AllocAligned(mid, blocks, 2 * n + 2, left + h, h, 2 * k + 1);
    }
  }

  // ---------------------------------------------------------------------------
  // The allocator object
  // ---------------------------------------------------------------------------

  /** A range of blocks handed out: `size` blocks starting at `offset`. */
  datatype Span = Span(offset: nat, size: nat)

  ghost function Blocks(sp: Span): set<nat>
  {
    Range(sp.offset, sp.size)
  }

  ghost function UnionOf(spans: seq<Span>): set<nat>
  {
    if spans == [] then {} else UnionOf(spans[..|spans| - 1]) + Blocks(spans[|spans| - 1])
  }

  ghost predicate PairwiseDisjoint(spans: seq<Span>)
  {
    forall i, j :: 0 <= i < j < |spans| ==> Blocks(spans[i]) !! Blocks(spans[j])
  }

  lemma {:induction false} UnionContains(spans: seq<Span>, i: nat)
    requires i < |spans|
    ensures Blocks(spans[i]) <= UnionOf(spans)
  {
    if i < |spans| - 1 {
      UnionContains(spans[..|spans| - 1], i);
    }
  }

  /** Appending a span disjoint from everything handed out keeps the history pairwise disjoint. */
  lemma ExtendDisjoint(spans: seq<Span>, sp: Span)
    requires PairwiseDisjoint(spans) && Blocks(sp) !! UnionOf(spans)
    ensures PairwiseDisjoint(spans + [sp]) && UnionOf(spans + [sp]) == UnionOf(spans) + Blocks(sp)
  {
    var s := spans + [sp];
    assert s[..|s| - 1] == spans;
    forall i, j | 0 <= i < j < |s|
      ensures Blocks(s[i]) !! Blocks(s[j])
    {
      if j == |spans| {
        UnionContains(spans, i);
      }
    }
  }

  class BuddyArrayAllocator {
    const blockCount: nat
    const nodes: array<bv8>
    /** Every successful allocation so far, in order. */
    ghost var handedOut: seq<Span>

    ghost predicate Valid()
      reads this, nodes
    {
      IsPow2(blockCount) && blockCount <= MAX_BLOCK_COUNT &&
      nodes.Length == 2 * blockCount - 1 &&
      Inv(View(nodes[..], 0, blockCount)) &&
      Covered(View(nodes[..], 0, blockCount), 0, blockCount) == UnionOf(handedOut) &&
      PairwiseDisjoint(handedOut)
    }

    /** `nodes_(2 * block_count - 1, 0)`: nothing used, nothing split. */
    constructor (blockCount: nat)
      requires IsPow2(blockCount) && blockCount <= MAX_BLOCK_COUNT
      ensures Valid() && fresh(nodes)
      ensures this.blockCount == blockCount && handedOut == []
      ensures nodes.Length == 2 * blockCount - 1
      ensures forall i :: 0 <= i < nodes.Length ==> nodes[i] == 0
    {
      this.blockCount := blockCount;
      nodes := new bv8[2 * blockCount - 1](_ => 0);
      handedOut := [];
      new;
      ZeroIsClean(nodes[..], 0, blockCount);
      CleanIsEmpty(View(nodes[..], 0, blockCount), 0, blockCount);
    }

    /** `allocate(blocks)`: search from the root, which covers all `block_count` blocks. */
    method Allocate(blocks: nat) returns (r: nat)
      requires Valid() && blocks >= 1
      modifies this, nodes
      ensures Valid()
      ensures (nodes[..], r) == Alloc(old(nodes[..]), blocks, 0, 0, blockCount)
      ensures blocks > blockCount || IsUsed(old(nodes[0])) ==> r == NOT_FOUND && nodes[..] == old(nodes[..])
      ensures r == NOT_FOUND ==> handedOut == old(handedOut)
      ensures r != NOT_FOUND ==>
        handedOut == old(handedOut) + [Span(r, Pow2(Order(blocks)))] &&
        blocks <= Pow2(Order(blocks)) && r + Pow2(Order(blocks)) <= blockCount && r % Pow2(Order(blocks)) == 0
    {
      ghost var before := nodes[..];
      Placement(nodes.Length, 0, blockCount);
      AllocCovers(before, blocks, 0, 0, blockCount);
      AllocAligned(before, blocks, 0, 0, blockCount, 0);
      r := AllocateAt(blocks, 0, 0, blockCount);
      if r != NOT_FOUND {
        var sp := Span(r, Pow2(Order(blocks)));
        CoveredWithin(View(nodes[..], 0, blockCount), 0, blockCount);
        assert r in Blocks(sp);
        assert r + sp.size - 1 in Blocks(sp);
        ExtendDisjoint(handedOut, sp);
        handedOut := handedOut + [sp];
      }
    }

    /** `allocate_(blocks, node, left, size)`, recursive and writing the node flags in place. */
    method AllocateAt(blocks: nat, node: nat, left: nat, size: nat) returns (r: nat)
      requires blocks >= 1 && WellPlaced(nodes.Length, node, size)
      modifies nodes
      ensures (nodes[..], r) == Alloc(old(nodes[..]), blocks, node, left, size)
      decreases size
    {
      Placement(nodes.Length, node, size);
      if IsUsed(nodes[node]) {
        return NOT_FOUND;
      }
      var lower := size / 2;
      if blocks > size {
        return NOT_FOUND;
      } else if lower < blocks {
        if IsSplit(nodes[node]) {
          return NOT_FOUND;
        }
        nodes[node] := SetUsed(nodes[node]);
        return left;
      } else {
        nodes[node] := SetSplit(nodes[node]);
        var l := AllocateAt(blocks, 2 * node + 1, left, lower);
        if l != NOT_FOUND {
          return l;
        } else {
          r := AllocateAt(blocks, 2 * node + 2, left + lower, lower);
        }
      }
    }
  }
}
