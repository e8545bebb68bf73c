/** Red-black trees as values: the shape that the linked nodes of nss.c are
    proved to have, cut at a node into the subtree below it (Tree) and the path
    above it (Ctx).  The two fixup loops are steps on such a cut. */
module RbTree {
  datatype Color = Red | Black

  /** A node as the program stores it.  The shared sentinel is one of these too;
      its l and r stay null, and p is whatever the last deletion wrote there. */
  class Rbt {
    var i: int
    var c: Color
    var l: Rbt?
    var r: Rbt?
    var p: Rbt?

    // new_rbt_node
    constructor (key: int, nil: Rbt)
      ensures i == key && c == Red && l == nil && r == nil && p == nil
    {
      i, c, l, r, p := key, Red, nil, nil, nil;
    }

    // the statically zeroed sentinel, painted black
    constructor Sentinel()
      ensures c == Black && l == null && r == null && p == null
    {
      i, c, l, r, p := 0, Black, null, null, null;
    }
  }

  datatype Tree = Leaf | Node(n: Rbt, c: Color, k: int, l: Tree, r: Tree)

  /** The path from a position up to the root: InL says the position is the left
      child of n, whose other child is sib. */
  datatype Ctx =
    | Top
    | InL(n: Rbt, c: Color, k: int, sib: Tree, up: Ctx)
    | InR(n: Rbt, c: Color, k: int, sib: Tree, up: Ctx)

  function ColorOf(t: Tree): Color {
    if t.Leaf? then Black else t.c
  }

  // The color of the parent; the sentinel above the root is black.
  function ParentColor(x: Ctx): Color {
    if x.Top? then Black else x.c
  }

  function Paint(c: Color, t: Tree): Tree
    requires t.Node?
  {
    t.(c := c)
  }

  function Blacken(t: Tree): Tree {
    if t.Leaf? then t else t.(c := Black)
  }

  /** One level up: the parent's subtree. */
  function Join(x: Ctx, t: Tree): Tree
    requires !x.Top?
  {
    if x.InL? then Node(x.n, x.c, x.k, t, x.sib) else Node(x.n, x.c, x.k, x.sib, t)
  }

  function WithSibling(x: Ctx, sib: Tree): Ctx
    requires !x.Top?
  {
    if x.InL? then InL(x.n, x.c, x.k, sib, x.up) else InR(x.n, x.c, x.k, sib, x.up)
  }

  function Plug(x: Ctx, t: Tree): (whole: Tree)
    ensures whole.Node? <==> t.Node? || !x.Top?
    decreases x
  {
    if x.Top? then t else Plug(x.up, Join(x, t))
  }

  // ---------- keys ----------

  function Inorder(t: Tree): seq<int> {
    if t.Leaf? then [] else Inorder(t.l) + [t.k] + Inorder(t.r)
  }

  function Before(x: Ctx): seq<int> {
    match x
    case Top => []
    case InL(_, _, _, _, up) => Before(up)
    case InR(_, _, k, sib, up) => Before(up) + (Inorder(sib) + [k])
  }

  function After(x: Ctx): seq<int> {
    match x
    case Top => []
    case InL(_, _, k, sib, up) => ([k] + Inorder(sib)) + After(up)
    case InR(_, _, _, _, up) => After(up)
  }

  /** All keys of the tree that is cut into x and t, in order. */
  function Whole(x: Ctx, t: Tree): seq<int> {
    Before(x) + Inorder(t) + After(x)
  }

  lemma WholeUp(x: Ctx, t: Tree)
    requires !x.Top?
    ensures Whole(x, t) == Whole(x.up, Join(x, t))
  {
    if x.InL? {
      assert Whole(x, t) == Before(x.up) + (Inorder(t) + [x.k] + Inorder(x.sib)) + After(x.up);
    } else {
      assert Whole(x, t) == Before(x.up) + (Inorder(x.sib) + [x.k] + Inorder(t)) + After(x.up);
    }
  }

  lemma {:induction false} PlugInorder(x: Ctx, t: Tree)
    ensures Inorder(Plug(x, t)) == Whole(x, t)
    decreases x
  {
    if x.Top? {
      assert Whole(x, t) == Inorder(t);
    } else {
      PlugInorder(x.up, Join(x, t));
      WholeUp(x, t);
    }
  }

  lemma RotateInorder(x: Rbt, cx: Color, kx: int, y: Rbt, cy: Color, ky: int, cx': Color, cy': Color,
                      a: Tree, b: Tree, d: Tree)
    ensures Inorder(Node(x, cx, kx, a, Node(y, cy, ky, b, d)))
         == Inorder(Node(y, cy', ky, Node(x, cx', kx, a, b), d))
  {
    assert Inorder(a) + [kx] + (Inorder(b) + [ky] + Inorder(d)) == Inorder(a) + [kx] + Inorder(b) + [ky] + Inorder(d);
  }

  ghost predicate Sorted(s: seq<int>) {
    forall i, j :: 0 <= i < j < |s| ==> s[i] < s[j]
  }

  // ---------- colors ----------

  /** No red node has a red child and every path down has h black nodes. */
  ghost predicate Rb(t: Tree, h: int) {
    match t
    case Leaf => h == 0
    case Node(_, Red, _, l, r) => Rb(l, h) && Rb(r, h) && ColorOf(l) == Black && ColorOf(r) == Black
    case Node(_, Black, _, l, r) => Rb(l, h - 1) && Rb(r, h - 1)
  }

  /** A red-black tree: balanced, with a black root. */
  ghost predicate RedBlack(t: Tree) {
    ColorOf(t) == Black && exists h :: Rb(t, h)
  }

  /** The path x accepts, at its open end, a subtree of black height h whose
      root is black whenever the parent is red; the topmost node is black. */
  ghost predicate CtxRb(x: Ctx, h: int)
    decreases x
  {
    x.Top? ||
    (Rb(x.sib, h) &&
     if x.c == Red then !x.up.Top? && x.up.c == Black && ColorOf(x.sib) == Black && CtxRb(x.up, h)
     else CtxRb(x.up, h + 1))
  }

  lemma {:induction false} PlugRb(x: Ctx, t: Tree, h: int) returns (g: int)
    requires CtxRb(x, h) && Rb(t, h) && (ParentColor(x) == Red || x.Top? ==> ColorOf(t) == Black)
    ensures Rb(Plug(x, t), g) && ColorOf(Plug(x, t)) == Black
    decreases x
  {
    if x.Top? {
      g := h;
    } else if x.c == Red {
      g := PlugRb(x.up, Join(x, t), h);
    } else {
      assert Rb(Join(x, t), h + 1);
      g := PlugRb(x.up, Join(x, t), h + 1);
    }
  }

  lemma {:induction false} RbHeight(t: Tree, h: int)
    requires Rb(t, h)
    ensures h >= 0
  {
    if !t.Leaf? {
      RbHeight(t.l, if t.c == Red then h else h - 1);
    }
  }

  // ---------- rb_insert_fixup, one turn of its loop ----------

  /** A cut during insertion: the node at the cut is red and may have a red
      parent; everything else is in order. */
  ghost predicate InsertCut(x: Ctx, t: Tree, h: int) {
    t.Node? && t.c == Red && CtxRb(x, h) && Rb(t, h)
  }

  /** One turn of the loop of rb_insert_fixup, taken while the parent is red. */
  function InsertStep(x: Ctx, t: Tree): (Ctx, Tree)
    requires t.Node? && ParentColor(x) == Red && !x.up.Top?
  {
    var g := x.up;
    if ColorOf(g.sib) == Red then
      (g.up, Paint(Red, Join(WithSibling(g, Blacken(g.sib)), Paint(Black, Join(x, t)))))
    else if g.InL? && x.InR? then
      (InL(t.n, t.c, t.k, t.r, g), Node(x.n, x.c, x.k, x.sib, t.l))
    else if g.InL? then
      (InL(x.n, Black, x.k, Node(g.n, Red, g.k, x.sib, g.sib), g.up), t)
    else if x.InL? then
      (InR(t.n, t.c, t.k, t.l, g), Node(x.n, x.c, x.k, t.r, x.sib))
    else
      (InR(x.n, Black, x.k, Node(g.n, Red, g.k, g.sib, x.sib), g.up), t)
  }

  function Depth(x: Ctx): nat {
    if x.Top? then 0 else 1 + Depth(x.up)
  }

  /** Decreases at every turn of the insertion loop. */
  function InsertMeasure(x: Ctx): nat {
    if ParentColor(x) == Black then 0
    else 2 + 2 * Depth(x) - (if x.up.Top? || x.InL? == x.up.InL? then 1 else 0)
  }

  lemma InsertStepOk(x: Ctx, t: Tree, h: int)
    requires InsertCut(x, t, h) && ParentColor(x) == Red
    ensures var (x', t') := InsertStep(x, t);
      && (InsertCut(x', t', h) || InsertCut(x', t', h + 1))
      && InsertMeasure(x') < InsertMeasure(x)
  {
    var (x', t') := InsertStep(x, t);
    var g := x.up;
    assert CtxRb(g, h);
    assert Rb(g.sib, h) && CtxRb(g.up, h + 1);
    assert Depth(x) == 2 + Depth(g.up);
    if ColorOf(g.sib) == Red {
      assert Rb(g.sib.l, h) && Rb(g.sib.r, h);
      assert Rb(Blacken(g.sib), h + 1) && Rb(Paint(Black, Join(x, t)), h + 1);
      assert InsertCut(x', t', h + 1);
    } else if x.InL? != g.InL? {
      assert Rb(t.l, h) && Rb(t.r, h);
      assert CtxRb(x', h);
      assert Depth(x') == Depth(x);
    } else {
      assert Rb(x'.sib, h);
      assert CtxRb(x', h);
    }
  }

  lemma InsertStepKeys(x: Ctx, t: Tree)
    requires t.Node? && ParentColor(x) == Red && !x.up.Top?
    ensures var (x', t') := InsertStep(x, t); Whole(x', t') == Whole(x, t)
  {
    var (x', t') := InsertStep(x, t);
    var g := x.up;
    WholeUp(x, t);
    WholeUp(g, Join(x, t));
    if ColorOf(g.sib) == Red {
      assert Inorder(Paint(Black, Join(x, t))) == Inorder(Join(x, t));
      assert Inorder(Blacken(g.sib)) == Inorder(g.sib);
    } else if x.InL? != g.InL? {
      WholeUp(x', t');
      WholeUp(g, Join(x', t'));
      if g.InL? {
        RotateInorder(x.n, x.c, x.k, t.n, t.c, t.k, x.c, t.c, x.sib, t.l, t.r);
      } else {
        RotateInorder(t.n, t.c, t.k, x.n, x.c, x.k, t.c, x.c, t.l, t.r, x.sib);
      }
    } else {
      WholeUp(x', t');
      if g.InL? {
        RotateInorder(x.n, Black, x.k, g.n, Red, g.k, x.c, g.c, t, x.sib, g.sib);
      } else {
        RotateInorder(g.n, g.c, g.k, x.n, x.c, x.k, Red, Black, g.sib, x.sib, t);
      }
    }
  }

  // ---------- rb_delete_fixup, one turn of its loop ----------

  /** A cut during deletion: the subtree is one black short of what the path
      expects, which painting its root black would mend if that root is red. */
  ghost predicate DeleteCut(x: Ctx, t: Tree, h: int) {
    && CtxRb(x, h + 1)
    && (if ColorOf(t) == Red then Rb(t.l, h) && Rb(t.r, h) else Rb(t, h))
  }

  /** One turn of the loop of rb_delete_fixup, taken while the position is black
      and not the root.  w is the brother. */
  function DeleteStep(x: Ctx, t: Tree): (Ctx, Tree)
    requires !x.Top? && x.sib.Node?
  {
    var w := x.sib;
    if x.InL? then
      if w.c == Red then
        (InL(x.n, Red, x.k, w.l, InL(w.n, Black, w.k, w.r, x.up)), t)
      else if ColorOf(w.l) == Black && ColorOf(w.r) == Black then
        (x.up, Node(x.n, x.c, x.k, t, w.(c := Red)))
      else if ColorOf(w.r) == Black then
        (WithSibling(x, Node(w.l.n, Black, w.l.k, w.l.l, Node(w.n, Red, w.k, w.l.r, w.r))), t)
      else
        (Top, Plug(x.up, Node(w.n, x.c, w.k, Node(x.n, Black, x.k, t, w.l), w.r.(c := Black))))
    else
      if w.c == Red then
        (InR(x.n, Red, x.k, w.r, InR(w.n, Black, w.k, w.l, x.up)), t)
      else if ColorOf(w.l) == Black && ColorOf(w.r) == Black then
        (x.up, Node(x.n, x.c, x.k, w.(c := Red), t))
      else if ColorOf(w.l) == Black then
        (WithSibling(x, Node(w.r.n, Black, w.r.k, Node(w.n, Red, w.k, w.l, w.r.l), w.r.r)), t)
      else
        (Top, Plug(x.up, Node(w.n, x.c, w.k, w.l.(c := Black), Node(x.n, Black, x.k, w.r, t))))
  }

  function BlackDepth(x: Ctx): nat {
    if x.Top? then 0 else BlackDepth(x.up) + (if x.c == Black then 1 else 0)
  }

  /** Decreases at every turn of the deletion loop: moving up loses a black node
      or ends the loop, turning a red brother makes the parent red, and case 3
      makes the brother's far child red. */
  function DeleteMeasure(x: Ctx, t: Tree): nat {
    if x.Top? || ColorOf(t) == Red then 0
    else
      1 + 4 * BlackDepth(x) + (if x.c == Black then 2 else 0)
      + (if x.sib.Node? && ColorOf(if x.InL? then x.sib.r else x.sib.l) == Red then 0 else 1)
  }

  /** While the loop runs, the brother is a proper node, so its children may be read. */
  lemma BrotherExists(x: Ctx, t: Tree, h: int)
    requires DeleteCut(x, t, h) && !x.Top? && ColorOf(t) == Black
    ensures x.sib.Node? && h >= 0
    ensures x.sib.c == Red ==> x.c == Black && x.sib.l.Node? && x.sib.r.Node?
  {
    RbHeight(t, h);
    assert Rb(x.sib, h + 1);
    if x.sib.c == Red {
      assert Rb(x.sib.l, h + 1) && Rb(x.sib.r, h + 1);
    }
  }

  lemma DeleteStepOk(x: Ctx, t: Tree, h: int) returns (h': int)
    requires DeleteCut(x, t, h) && !x.Top? && ColorOf(t) == Black && x.sib.Node?
    ensures var (x', t') := DeleteStep(x, t);
      DeleteCut(x', t', h') && DeleteMeasure(x', t') < DeleteMeasure(x, t)
  {
    BrotherExists(x, t, h);
    var (x', t') := DeleteStep(x, t);
    var w := x.sib;
    if w.c == Red {
      h' := h;
      assert Rb(w.l, h + 1) && Rb(w.r, h + 1);
      assert CtxRb(x'.up, h + 1);
      assert CtxRb(x', h + 1);
      assert BlackDepth(x'.up) == 1 + BlackDepth(x.up);
    } else if ColorOf(w.l) == Black && ColorOf(w.r) == Black {
      h' := if x.c == Red then h else h + 1;
    } else if ColorOf(if x.InL? then w.r else w.l) == Black {
      h' := h;
      var near := if x.InL? then w.l else w.r;
      assert Rb(near, h) && Rb(near.l, h) && Rb(near.r, h);
      assert Rb(x'.sib, h + 1);
      assert CtxRb(x', h + 1);
    } else {
      var s := if x.InL? then Node(w.n, x.c, w.k, Node(x.n, Black, x.k, t, w.l), w.r.(c := Black))
               else Node(w.n, x.c, w.k, w.l.(c := Black), Node(x.n, Black, x.k, w.r, t));
      var g := if x.c == Red then h + 1 else h + 2;
      var far, near := if x.InL? then w.r else w.l, if x.InL? then w.l else w.r;
      assert Rb(far, h) && Rb(near, h) && far.c == Red;
      assert Rb(far.(c := Black), h + 1);
      assert Rb(if x.InL? then s.l else s.r, h + 1);
      assert Rb(s, g);
      h' := PlugRb(x.up, s, g);
    }
  }

  lemma DeleteStepKeys(x: Ctx, t: Tree)
    requires !x.Top? && x.sib.Node?
    ensures var (x', t') := DeleteStep(x, t); Whole(x', t') == Whole(x, t)
  {
    hide Whole, Inorder, Plug, Before, After, DeleteStep;
    if x.sib.c == Red {
      DeleteRedKeys(x, t);
    } else if ColorOf(x.sib.l) == Black && ColorOf(x.sib.r) == Black {
      DeleteUpKeys(x, t);
    } else if ColorOf(if x.InL? then x.sib.r else x.sib.l) == Black {
      DeleteInnerKeys(x, t);
    } else {
      DeleteOuterKeys(x, t);
    }
  }

  lemma DeleteRedKeys(x: Ctx, t: Tree)
    requires !x.Top? && x.sib.Node? && x.sib.c == Red
    ensures var (x', t') := DeleteStep(x, t); Whole(x', t') == Whole(x, t)
  {
    hide Whole, Inorder, Before, After;
    var (x', t') := DeleteStep(x, t);
    var w := x.sib;
    WholeUp(x, t);
    WholeUp(x', t');
    WholeUp(x'.up, Join(x', t'));
    if x.InL? {
      RotateInorder(x.n, x.c, x.k, w.n, w.c, w.k, Red, Black, t, w.l, w.r);
      WholeSame(x.up, Join(x, t), Join(x'.up, Join(x', t')));
    } else {
      RotateInorder(w.n, Black, w.k, x.n, Red, x.k, w.c, x.c, w.l, w.r, t);
      WholeSame(x.up, Join(x, t), Join(x'.up, Join(x', t')));
    }
  }

  lemma DeleteUpKeys(x: Ctx, t: Tree)
    requires !x.Top? && x.sib.Node? && x.sib.c == Black && ColorOf(x.sib.l) == Black && ColorOf(x.sib.r) == Black
    ensures var (x', t') := DeleteStep(x, t); Whole(x', t') == Whole(x, t)
  {
    WholeUp(x, t);
    assert Inorder(x.sib.(c := Red)) == Inorder(x.sib);
  }

  lemma DeleteInnerKeys(x: Ctx, t: Tree)
    requires !x.Top? && x.sib.Node? && x.sib.c == Black && !(ColorOf(x.sib.l) == Black && ColorOf(x.sib.r) == Black)
    requires ColorOf(if x.InL? then x.sib.r else x.sib.l) == Black
    ensures var (x', t') := DeleteStep(x, t); Whole(x', t') == Whole(x, t)
  {
    hide Inorder;
    var w := x.sib;
    if x.InL? {
      RotateInorder(w.l.n, Black, w.l.k, w.n, Red, w.k, w.l.c, w.c, w.l.l, w.l.r, w.r);
    } else {
      RotateInorder(w.n, w.c, w.k, w.r.n, w.r.c, w.r.k, Red, Black, w.l, w.r.l, w.r.r);
    }
  }

  lemma DeleteOuterKeys(x: Ctx, t: Tree)
    requires !x.Top? && x.sib.Node? && x.sib.c == Black
    requires ColorOf(if x.InL? then x.sib.r else x.sib.l) == Red
    ensures var (x', t') := DeleteStep(x, t); Whole(x', t') == Whole(x, t)
  {
    hide Inorder, Plug, Before, After, Whole;
    var w := x.sib;
    WholeUp(x, t);
    if x.InL? {
      RotateInorder(x.n, x.c, x.k, w.n, w.c, w.k, Black, x.c, t, w.l, w.r);
      Repaint(w.n, x.c, w.k, Node(x.n, Black, x.k, t, w.l), w.r);
      OuterDone(x.up, Join(x, t), Node(w.n, x.c, w.k, Node(x.n, Black, x.k, t, w.l), w.r.(c := Black)));
    } else {
      RotateInorder(w.n, x.c, w.k, x.n, Black, x.k, w.c, x.c, w.l, w.r, t);
      RepaintLeft(w.n, x.c, w.k, w.l, Node(x.n, Black, x.k, w.r, t));
      OuterDone(x.up, Join(x, t), Node(w.n, x.c, w.k, w.l.(c := Black), Node(x.n, Black, x.k, w.r, t)));
    }
  }

  lemma WholeSame(x: Ctx, t: Tree, t': Tree)
    requires Inorder(t) == Inorder(t')
    ensures Whole(x, t) == Whole(x, t')
  {
  }

  lemma Repaint(n: Rbt, c: Color, k: int, l: Tree, r: Tree)
    requires r.Node?
    ensures Inorder(Node(n, c, k, l, r.(c := Black))) == Inorder(Node(n, c, k, l, r))
  {
    assert Inorder(r.(c := Black)) == Inorder(r);
  }

  lemma RepaintLeft(n: Rbt, c: Color, k: int, l: Tree, r: Tree)
    requires l.Node?
    ensures Inorder(Node(n, c, k, l.(c := Black), r)) == Inorder(Node(n, c, k, l, r))
  {
    assert Inorder(l.(c := Black)) == Inorder(l);
  }

  lemma OuterDone(up: Ctx, t: Tree, s: Tree)
    requires Inorder(s) == Inorder(t)
    ensures Whole(Top, Plug(up, s)) == Whole(up, t)
  {
    PlugInorder(up, s);
    assert Whole(Top, Plug(up, s)) == Inorder(Plug(up, s));
  }

  // ---------- cutting a tree ----------

  /** Any cut of a red-black tree has balanced parts that fit each other. */
  lemma {:induction false} CutRb(x: Ctx, t: Tree, g: int) returns (h: int)
    requires Rb(Plug(x, t), g) && ColorOf(Plug(x, t)) == Black
    ensures CtxRb(x, h) && Rb(t, h)
    ensures ParentColor(x) == Red || x.Top? ==> ColorOf(t) == Black
    decreases x
  {
    if x.Top? {
      h := g;
    } else {
      var h' := CutRb(x.up, Join(x, t), g);
      h := if x.c == Red then h' else h' - 1;
    }
  }

  /** Every key left of the cut is below key, every key right of it above. */
  ghost predicate Around(x: Ctx, key: int) {
    (forall k <- Before(x) :: k < key) && (forall k <- After(x) :: key < k)
  }

  lemma SortedAt(a: seq<int>, k: int, b: seq<int>)
    requires Sorted(a + [k] + b)
    ensures Sorted(a) && Sorted(b) && (forall j <- a :: j < k) && (forall j <- b :: k < j)
    ensures Sorted(a + b)
  {
    var s := a + [k] + b;
    assert s[|a|] == k;
    assert a == s[..|a|] && b == s[|a| + 1..];
    forall i, j | 0 <= i < j < |a + b|
      ensures (a + b)[i] < (a + b)[j]
    {
      assert (a + b)[i] == s[if i < |a| then i else i + 1] && (a + b)[j] == s[if j < |a| then j else j + 1];
    }
  }

  lemma SortedJoin(a: seq<int>, k: int, b: seq<int>)
    requires Sorted(a + b) && (forall j <- a :: j < k) && (forall j <- b :: k < j)
    ensures Sorted(a + [k] + b)
  {
    var s := a + [k] + b;
    forall i, j | 0 <= i < j < |s|
      ensures s[i] < s[j]
    {
      assert i < |a| ==> s[i] == a[i] == (a + b)[i] && a[i] in a;
      assert j < |a| ==> s[j] == (a + b)[j];
      assert i > |a| ==> s[i] == (a + b)[i - 1];
      assert j > |a| ==> s[j] == b[j - |a| - 1] == (a + b)[j - 1] && b[j - |a| - 1] in b;
    }
  }

  function Elems(s: seq<int>): set<int> {
    set k | k in s
  }

  function Keys(t: Tree): set<int> {
    Elems(Inorder(t))
  }

  lemma ElemsJoin(a: seq<int>, k: int, b: seq<int>)
    ensures Elems(a + [k] + b) == Elems(a + b) + {k}
  {
    assert forall j :: j in a + [k] + b <==> j in a || j == k || j in b;
    assert forall j :: j in a + b <==> j in a || j in b;
  }

  /** Where a search ends decides whether the key is there. */
  lemma SearchDone(x: Ctx, t: Tree, key: int)
    requires Sorted(Whole(x, t)) && Around(x, key)
    requires t.Node? ==> key == t.k || (key < t.k && t.l.Leaf?) || (key > t.k && t.r.Leaf?)
    ensures key in Keys(Plug(x, t)) <==> t.Node? && t.k == key
  {
    PlugInorder(x, t);
    if t.Node? {
      WholeAt(x, t);
      SortedAt(Before(x) + Inorder(t.l), t.k, Inorder(t.r) + After(x));
    } else {
      assert Whole(x, t) == Before(x) + After(x);
    }
  }

  /** A key put beside the node where its search ended keeps the order. */
  lemma InsertKeys(x: Ctx, t: Tree, x1: Ctx, t1: Tree)
    requires Sorted(Whole(x, t)) && t1.Node? && t1.l == Leaf && t1.r == Leaf && Around(x, t1.k)
    requires if t.Leaf? then x == x1 == Top else
      (t.l.Leaf? && t1.k < t.k && x1 == InL(t.n, t.c, t.k, t.r, x))
      || (t.r.Leaf? && t1.k > t.k && x1 == InR(t.n, t.c, t.k, t.l, x))
    ensures Sorted(Whole(x1, t1))
    ensures Elems(Whole(x1, t1)) == Elems(Whole(x, t)) + {t1.k}
  {
    var a, b := Before(x1), After(x1);
    assert Inorder(t1) == [] + [t1.k] + [];
    assert Whole(x1, t1) == a + [t1.k] + b;
    if t.Leaf? {
      assert Whole(x, t) == a + b;
    } else if x1.InL? {
      assert Inorder(t) == [] + [t.k] + Inorder(t.r);
      assert Whole(x, t) == Before(x) + (([t.k] + Inorder(t.r)) + After(x));
    } else {
      assert Inorder(t) == Inorder(t.l) + [t.k] + [];
      assert Whole(x, t) == (Before(x) + (Inorder(t.l) + [t.k])) + After(x);
    }
    assert Around(x1, t1.k) by {
      if t.Node? {
        SearchStep(x, t, t1.k);
      }
    }
    SortedJoin(a, t1.k, b);
    ElemsJoin(a, t1.k, b);
  }

  /** A red node hung below a node with a free side starts an insertion cut. */
  lemma AttachCut(x: Ctx, t: Tree, x1: Ctx, t1: Tree) returns (h: int)
    requires RedBlack(Plug(x, t))
    requires t1.Node? && t1.c == Red && t1.l == Leaf && t1.r == Leaf
    requires if t.Leaf? then x == x1 == Top else
      (t.l.Leaf? && x1 == InL(t.n, t.c, t.k, t.r, x)) || (t.r.Leaf? && x1 == InR(t.n, t.c, t.k, t.l, x))
    ensures InsertCut(x1, t1, h)
  {
    h := 0;
    if t.Node? {
      var g :| Rb(Plug(x, t), g);
      var h0 := CutRb(x, t, g);
      assert CtxRb(x, h0) && Rb(t, h0);
      assert h0 == if t.c == Red then 0 else 1;
      assert t.c == Red ==> !x.Top? && x.c == Black;
    }
  }

  /** The last act of rb_insert_fixup: a black root. */
  lemma InsertDone(x: Ctx, t: Tree, h: int)
    requires InsertCut(x, t, h) && ParentColor(x) == Black
    ensures RedBlack(Blacken(Plug(x, t))) && Inorder(Blacken(Plug(x, t))) == Whole(x, t)
  {
    PlugInorder(x, t);
    assert Inorder(Blacken(Plug(x, t))) == Inorder(Plug(x, t));
    if x.Top? {
      assert Rb(Blacken(t), h + 1);
    } else {
      var g := PlugRb(x, t, h);
      assert Blacken(Plug(x, t)) == Plug(x, t);
    }
  }

  /** The last act of rb_delete_fixup: the position painted black. */
  lemma DeleteDone(x: Ctx, t: Tree, h: int)
    requires DeleteCut(x, t, h) && (x.Top? || ColorOf(t) == Red)
    ensures RedBlack(Plug(x, Blacken(t))) && Inorder(Plug(x, Blacken(t))) == Whole(x, t)
  {
    PlugInorder(x, Blacken(t));
    assert Inorder(Blacken(t)) == Inorder(t);
    var g := if ColorOf(t) == Red then h + 1 else h;
    assert Rb(Blacken(t), g);
    var h' := PlugRb(x, Blacken(t), g);
  }

  /** Reading the whole around the key at the cut. */
  lemma WholeAt(x: Ctx, t: Tree)
    requires t.Node?
    ensures Whole(x, t) == (Before(x) + Inorder(t.l)) + [t.k] + (Inorder(t.r) + After(x))
  {
  }

  /** One step of a search: the keys on the side not taken are beyond key. */
  lemma SearchStep(x: Ctx, t: Tree, key: int)
    requires t.Node? && Sorted(Whole(x, t)) && Around(x, key)
    ensures key < t.k ==> Around(InL(t.n, t.c, t.k, t.r, x), key)
    ensures key > t.k ==> Around(InR(t.n, t.c, t.k, t.l, x), key)
    ensures Inorder(Node(t.n, t.c, t.k, t.l, t.r)) == Inorder(t)
  {
    WholeAt(x, t);
    var a, b := Before(x) + Inorder(t.l), Inorder(t.r) + After(x);
    SortedAt(a, t.k, b);
    assert After(InL(t.n, t.c, t.k, t.r, x)) == [t.k] + b;
    assert Before(InR(t.n, t.c, t.k, t.l, x)) == a + [t.k];
  }

  /** The cut at the leftmost node of the subtree t. */
  function MinCut(x: Ctx, t: Tree): (cut: (Ctx, Tree))
    requires t.Node?
    ensures cut.1.Node? && cut.1.l.Leaf?
    decreases t
  {
    if t.l.Leaf? then (x, t) else MinCut(InL(t.n, t.c, t.k, t.r, x), t.l)
  }

  function MaxCut(x: Ctx, t: Tree): (cut: (Ctx, Tree))
    requires t.Node?
    ensures cut.1.Node? && cut.1.r.Leaf?
    decreases t
  {
    if t.r.Leaf? then (x, t) else MaxCut(InR(t.n, t.c, t.k, t.l, x), t.r)
  }

  lemma Regroup(a: seq<int>, k: int, b: seq<int>, c: seq<int>)
    ensures (a + [k] + b) + c == a + (([k] + b) + c)
  {
  }

  lemma RegroupLeft(c: seq<int>, a: seq<int>, k: int, b: seq<int>)
    ensures c + (a + [k] + b) == (c + (a + [k])) + b
  {
  }

  lemma {:induction false} MinCutKeys(x: Ctx, t: Tree)
    requires t.Node?
    ensures var (y, m) := MinCut(x, t);
      Plug(y, m) == Plug(x, t) && Before(y) == Before(x)
      && [m.k] + (Inorder(m.r) + After(y)) == Inorder(t) + After(x)
    decreases t
  {
    if t.l.Node? {
      MinCutKeys(InL(t.n, t.c, t.k, t.r, x), t.l);
      Regroup(Inorder(t.l), t.k, Inorder(t.r), After(x));
    }
  }

  lemma {:induction false} MaxCutKeys(x: Ctx, t: Tree)
    requires t.Node?
    ensures var (y, m) := MaxCut(x, t);
      Plug(y, m) == Plug(x, t) && After(y) == After(x)
      && (Before(y) + Inorder(m.l)) + [m.k] == Before(x) + Inorder(t)
    decreases t
  {
    if t.r.Node? {
      MaxCutKeys(InR(t.n, t.c, t.k, t.l, x), t.r);
      RegroupLeft(Before(x), Inorder(t.l), t.k, Inorder(t.r));
    }
  }

  /** The path with the key of its node z replaced. */
  function Rekey(x: Ctx, z: Rbt, k: int): Ctx {
    match x
    case Top => Top
    case InL(n, c, k0, sib, up) => if n == z then InL(n, c, k, sib, up) else InL(n, c, k0, sib, Rekey(up, z, k))
    case InR(n, c, k0, sib, up) => if n == z then InR(n, c, k, sib, up) else InR(n, c, k0, sib, Rekey(up, z, k))
  }

  lemma {:induction false} RekeyRb(x: Ctx, z: Rbt, k: int, h: int)
    requires CtxRb(x, h)
    ensures CtxRb(Rekey(x, z, k), h) && Rekey(x, z, k).Top? == x.Top? && ParentColor(Rekey(x, z, k)) == ParentColor(x)
  {
    if !x.Top? {
      RekeyRb(x.up, z, k, if x.c == Red then h else h + 1);
    }
  }

  // ---------- rb_delete before its fixup ----------

  /** The cut left behind when the node at (x, t), which has at most one child
      s, is taken out: short of one black exactly if that node was black. */
  lemma SpliceCut(x: Ctx, t: Tree, s: Tree) returns (h: int)
    requires RedBlack(Plug(x, t))
    requires t.Node? && ((t.l.Leaf? && s == t.r) || (t.r.Leaf? && s == t.l))
    ensures if t.c == Black then DeleteCut(x, s, h)
            else CtxRb(x, h) && Rb(s, h) && ColorOf(s) == Black && ParentColor(x) == Black && !x.Top?
  {
    var g :| Rb(Plug(x, t), g);
    var h0 := CutRb(x, t, g);
    h := if t.c == Black then h0 - 1 else h0;
    assert Rb(s, h);
  }

  lemma RemovedKey(a: seq<int>, k: int, b: seq<int>)
    requires Sorted(a + [k] + b)
    ensures Sorted(a + b) && Elems(a + b) == Elems(a + [k] + b) - {k}
  {
    SortedAt(a, k, b);
    ElemsJoin(a, k, b);
    assert k !in a + b;
  }

  /** Taking out a node with at most one child takes out exactly its key. */
  lemma SpliceKeys(x: Ctx, t: Tree, s: Tree)
    requires t.Node? && ((t.l.Leaf? && s == t.r) || (t.r.Leaf? && s == t.l)) && Sorted(Whole(x, t))
    ensures Sorted(Whole(x, s)) && Elems(Whole(x, s)) == Elems(Whole(x, t)) - {t.k}
  {
    var a, b := Before(x) + Inorder(t.l), Inorder(t.r) + After(x);
    WholeAt(x, t);
    RemovedKey(a, t.k, b);
    assert Whole(x, s) == a + b;
  }

  /** Deleting at a node with two children: its successor (y, m) is taken out
      and its key moves up, which takes out exactly the old key of the node. */
  lemma ReplaceKeys(x: Ctx, t: Tree)
    requires t.Node? && t.r.Node? && Sorted(Whole(x, t))
    ensures var x1 := InR(t.n, t.c, t.k, t.l, x);
      var (y, m) := MinCut(x1, t.r);
      var y' := MinCut(InR(t.n, t.c, m.k, t.l, x), t.r).0;
      && MinCut(InR(t.n, t.c, m.k, t.l, x), t.r).1 == m
      && Whole(y', m.r) == (Before(x) + Inorder(t.l)) + (Inorder(t.r) + After(x))
      && Sorted(Whole(y', m.r)) && Elems(Whole(y', m.r)) == Elems(Whole(x, t)) - {t.k}
  {
    hide MinCut, Inorder, Before, After, Whole, Elems, Sorted;
    var x1 := InR(t.n, t.c, t.k, t.l, x);
    var (y, m) := MinCut(x1, t.r);
    var x2 := InR(t.n, t.c, m.k, t.l, x);
    var y' := MinCut(x2, t.r).0;
    MinCutSame(x1, x2, t.r);
    MinCutKeys(x2, t.r);
    SuccessorOut(x, t, x2, y', m);
    WholeAt(x, t);
    RemovedKey(Before(x) + Inorder(t.l), t.k, Inorder(t.r) + After(x));
  }

  lemma SuccessorOut(x: Ctx, t: Tree, x2: Ctx, y': Ctx, m: Tree)
    requires t.Node? && m.Node? && x2 == InR(t.n, t.c, m.k, t.l, x) && Before(y') == Before(x2)
    requires [m.k] + (Inorder(m.r) + After(y')) == Inorder(t.r) + After(x2)
    ensures Whole(y', m.r) == (Before(x) + Inorder(t.l)) + (Inorder(t.r) + After(x))
  {
    hide Inorder;
    var p, l, r := Before(x), Inorder(t.l), Inorder(m.r) + After(y');
    assert Whole(y', m.r) == (p + (l + [m.k])) + r;
    assert (p + (l + [m.k])) + r == (p + l) + ([m.k] + r);
  }

  /** The leftmost node does not depend on the path above. */
  lemma {:induction false} MinCutSame(x: Ctx, x': Ctx, t: Tree)
    requires t.Node?
    ensures MinCut(x, t).1 == MinCut(x', t).1
    decreases t
  {
    if t.l.Node? {
      MinCutSame(InL(t.n, t.c, t.k, t.r, x), InL(t.n, t.c, t.k, t.r, x'), t.l);
    }
  }
}
