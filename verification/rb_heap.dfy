/** The balanced tree of nss.c in its own form: nodes with l, r, p links, a
    global root and one shared sentinel, changed in place. */
module RbHeap {
  import opened RbTree

  /** What one node holds, and what all nodes of the tree hold. */
  datatype Cell = Cell(i: int, c: Color, l: Rbt?, r: Rbt?, p: Rbt?)
  type Mem = map<Rbt, Cell>

  ghost function Snap(S: set<Rbt>): Mem
    reads S
  {
    map n | n in S :: Cell(n.i, n.c, n.l, n.r, n.p)
  }

  // ---------- which memory a cut tree describes ----------

  ghost function Refs(t: Tree): set<Rbt> {
    if t.Leaf? then {} else {t.n} + Refs(t.l) + Refs(t.r)
  }

  ghost function CtxRefs(x: Ctx): set<Rbt> {
    if x.Top? then {} else {x.n} + Refs(x.sib) + CtxRefs(x.up)
  }

  ghost function Ref(t: Tree, nil: Rbt): Rbt {
    if t.Leaf? then nil else t.n
  }

  ghost function UpRef(x: Ctx, nil: Rbt): Rbt {
    if x.Top? then nil else x.n
  }

  /** No node is used twice. */
  ghost predicate Sep(t: Tree) {
    t.Node? ==>
      t.n !in Refs(t.l) && t.n !in Refs(t.r) && Refs(t.l) !! Refs(t.r) && Sep(t.l) && Sep(t.r)
  }

  ghost predicate SepCtx(x: Ctx) {
    !x.Top? ==>
      && x.n !in Refs(x.sib) && x.n !in CtxRefs(x.up) && Refs(x.sib) !! CtxRefs(x.up)
      && Sep(x.sib) && SepCtx(x.up)
  }

  /** Memory holds t: keys, colors, both child links and all parent links. */
  ghost predicate LinkT(t: Tree, p: Rbt, nil: Rbt, M: Mem) {
    t.Node? ==>
      && t.n in M && M[t.n] == Cell(t.k, t.c, Ref(t.l, nil), Ref(t.r, nil), p)
      && LinkT(t.l, t.n, nil, M) && LinkT(t.r, t.n, nil, M)
  }

  ghost function PathCell(x: Ctx, child: Rbt, nil: Rbt): Cell
    requires !x.Top?
  {
    if x.InL? then Cell(x.k, x.c, child, Ref(x.sib, nil), UpRef(x.up, nil))
    else Cell(x.k, x.c, Ref(x.sib, nil), child, UpRef(x.up, nil))
  }

  /** Memory holds the path x, whose open end points at child. */
  ghost predicate LinkCtx(x: Ctx, child: Rbt, root: Rbt, nil: Rbt, M: Mem) {
    if x.Top? then root == child else
      && x.n in M && M[x.n] == PathCell(x, child, nil)
      && LinkT(x.sib, x.n, nil, M) && LinkCtx(x.up, x.n, root, nil, M)
  }

  /** The nodes in M, cut at x and t, form one tree under root. */
  ghost predicate Linked(x: Ctx, t: Tree, M: Mem, root: Rbt, nil: Rbt) {
    && M.Keys == CtxRefs(x) + Refs(t) && nil !in M
    && Sep(t) && SepCtx(x) && Refs(t) !! CtxRefs(x)
    && LinkT(t, UpRef(x, nil), nil, M) && LinkCtx(x, Ref(t, nil), root, nil, M)
  }

  ghost predicate Agree(S: set<Rbt>, M: Mem, M': Mem) {
    forall n :: n in S && n in M ==> n in M' && M'[n] == M[n]
  }

  lemma {:induction false} FrameT(t: Tree, p: Rbt, nil: Rbt, M: Mem, M': Mem)
    requires LinkT(t, p, nil, M) && Agree(Refs(t), M, M')
    ensures LinkT(t, p, nil, M')
  {
    if t.Node? {
      FrameT(t.l, t.n, nil, M, M');
      FrameT(t.r, t.n, nil, M, M');
    }
  }

  lemma {:induction false} FrameCtx(x: Ctx, child: Rbt, root: Rbt, nil: Rbt, M: Mem, M': Mem)
    requires LinkCtx(x, child, root, nil, M) && Agree(CtxRefs(x), M, M')
    ensures LinkCtx(x, child, root, nil, M')
  {
    if !x.Top? {
      FrameT(x.sib, x.n, nil, M, M');
      FrameCtx(x.up, x.n, root, nil, M, M');
    }
  }

  /** Moving the cut between a node and its parent touches nothing. */
  lemma LinkedUp(x: Ctx, t: Tree, M: Mem, root: Rbt, nil: Rbt)
    requires !x.Top?
    ensures Linked(x, t, M, root, nil) <==> Linked(x.up, Join(x, t), M, root, nil)
  {
  }

  lemma {:induction false} LinkedPlug(x: Ctx, t: Tree, M: Mem, root: Rbt, nil: Rbt)
    ensures Linked(x, t, M, root, nil) <==> Linked(Top, Plug(x, t), M, root, nil)
    decreases x
  {
    if !x.Top? {
      LinkedUp(x, t, M, root, nil);
      LinkedPlug(x.up, Join(x, t), M, root, nil);
    }
  }

  // ---------- rotations ----------

  function LeftRotated(t: Tree): Tree
    requires t.Node? && t.r.Node?
  {
    Node(t.r.n, t.r.c, t.r.k, Node(t.n, t.c, t.k, t.l, t.r.l), t.r.r)
  }

  function RightRotated(t: Tree): Tree
    requires t.Node? && t.l.Node?
  {
    Node(t.l.n, t.l.c, t.l.k, t.l.l, Node(t.n, t.c, t.k, t.l.r, t.r))
  }

  /** The parent p of x now points at y where it pointed at x. */
  function Redirect(p: Cell, x: Rbt, y: Rbt): Cell {
    if p.l == x then p.(l := y) else if p.r == x then p.(r := y) else p
  }

  /** The writes of a rotation: x goes below y, b changes from y's child to x's. */
  ghost predicate RotateWrites(M: Mem, M': Mem, root: Rbt, root': Rbt, nil: Rbt, x: Rbt, y: Rbt, b: Rbt, left: bool) {
    && {x, y} <= M.Keys == M'.Keys
    && (M[x].p != nil ==> M[x].p in M)
    && M'[x] == (if left then M[x].(p := y, r := b) else M[x].(p := y, l := b))
    && M'[y] == (if left then M[y].(p := M[x].p, l := x) else M[y].(p := M[x].p, r := x))
    && (b != nil ==> b in M && M'[b] == M[b].(p := x))
    && (if M[x].p == nil then root' == y
        else root' == root && M'[M[x].p] == Redirect(M[M[x].p], x, y))
    && forall n :: n in M && n != x && n != y && n != b && n != M[x].p ==> M'[n] == M[n]
  }

  /** Memory after those writes, one after the other. */
  ghost function RotateMem(M: Mem, nil: Rbt, x: Rbt, y: Rbt, b: Rbt, left: bool): Mem
    requires x in M && y in M && (b != nil ==> b in M) && (M[x].p != nil ==> M[x].p in M)
  {
    var M1 := M[y := M[y].(p := M[x].p)];
    var M2 := M1[x := if left then M1[x].(r := b) else M1[x].(l := b)];
    var M3 := if b != nil then M2[b := M2[b].(p := x)] else M2;
    var p := M[x].p;
    var M4 := if p == nil then M3 else M3[p := Redirect(M3[p], x, y)];
    var M5 := M4[y := if left then M4[y].(l := x) else M4[y].(r := x)];
    M5[x := M5[x].(p := y)]
  }

  lemma RotateMemWrites(M: Mem, root: Rbt, nil: Rbt, x: Rbt, y: Rbt, b: Rbt, left: bool)
    requires x in M && y in M && (b != nil ==> b in M) && (M[x].p != nil ==> M[x].p in M)
    requires x != y && b != x && b != y && M[x].p != x && M[x].p != y && (b != nil ==> b != M[x].p)
    ensures RotateWrites(M, RotateMem(M, nil, x, y, b, left), root, if M[x].p == nil then y else root, nil, x, y, b, left)
  {
  }

  lemma InorderLeaf(t: Tree)
    requires t.Leaf?
    ensures Inorder(t) == []
  {
  }

  lemma SnapAt(S: set<Rbt>)
    ensures Snap(S).Keys == S && forall n :: n in S ==> Snap(S)[n] == Cell(n.i, n.c, n.l, n.r, n.p)
  {
  }

  /** Relinking the open end of a path. */
  lemma PathRelinked(x: Ctx, child: Rbt, child': Rbt, root: Rbt, root': Rbt, nil: Rbt, M: Mem, M': Mem)
    requires SepCtx(x) && LinkCtx(x, child, root, nil, M)
    requires !x.Top? ==> Ref(x.sib, nil) != child
    requires if x.Top? then root' == child'
             else root' == root && x.n in M' && M'[x.n] == Redirect(M[x.n], child, child')
    requires !x.Top? ==> Agree(CtxRefs(x) - {x.n}, M, M')
    ensures LinkCtx(x, child', root', nil, M')
  {
    if !x.Top? {
      FrameT(x.sib, x.n, nil, M, M');
      FrameCtx(x.up, x.n, root, nil, M, M');
    }
  }

  lemma Reparented(t: Tree, p: Rbt, p': Rbt, nil: Rbt, M: Mem, M': Mem)
    requires Sep(t) && LinkT(t, p, nil, M)
    requires t.Node? ==> t.n in M' && M'[t.n] == M[t.n].(p := p') && Agree(Refs(t) - {t.n}, M, M')
    ensures LinkT(t, p', nil, M')
  {
    if t.Node? {
      FrameT(t.l, t.n, nil, M, M');
      FrameT(t.r, t.n, nil, M, M');
    }
  }

  lemma RotatedSep(t: Tree)
    requires t.Node? && Sep(t)
    ensures t.r.Node? ==> Sep(LeftRotated(t)) && Refs(LeftRotated(t)) == Refs(t)
    ensures t.l.Node? ==> Sep(RightRotated(t)) && Refs(RightRotated(t)) == Refs(t)
  {
    assert Sep(t.l) && Sep(t.r);
  }

  lemma LeftRotateLinked(ctx: Ctx, t: Tree, M: Mem, M': Mem, root: Rbt, root': Rbt, nil: Rbt)
    requires t.Node? && t.r.Node? && Linked(ctx, t, M, root, nil)
    requires RotateWrites(M, M', root, root', nil, t.n, t.r.n, Ref(t.r.l, nil), true)
    ensures Linked(ctx, LeftRotated(t), M', root', nil)
  {
    LeftRotateNodes(ctx, t, M, root, nil);
    LeftRotateBelow(ctx, t, M, M', root, root', nil);
    assert t.r.l.Node? ==> t.r.l.n in Refs(t.r.l);
    RotateAbove(ctx, t, M, M', root, root', nil, t.r.n, Ref(t.r.l, nil), true);
    RotatedSep(t);
    hide LinkT, LinkCtx, RotateWrites;
  }

  lemma BelowPath(ctx: Ctx, t: Tree, M: Mem, root: Rbt, nil: Rbt)
    requires Linked(ctx, t, M, root, nil)
    ensures LinkT(t, UpRef(ctx, nil), nil, M) && Sep(t) && UpRef(ctx, nil) !in Refs(t) && nil !in Refs(t)
  {
  }

  /** The subtree that a rotation leaves. */
  lemma LeftRotateBelow(ctx: Ctx, t: Tree, M: Mem, M': Mem, root: Rbt, root': Rbt, nil: Rbt)
    requires t.Node? && t.r.Node? && Linked(ctx, t, M, root, nil)
    requires RotateWrites(M, M', root, root', nil, t.n, t.r.n, Ref(t.r.l, nil), true)
    ensures LinkT(LeftRotated(t), UpRef(ctx, nil), nil, M')
  {
    hide Linked, LinkCtx, SepCtx, CtxRefs;
    BelowPath(ctx, t, M, root, nil);
    var x, y, b := t.n, t.r.n, t.r.l;
    LeftRotateNodes(ctx, t, M, root, nil);
    assert LinkT(t.r, x, nil, M) && Sep(t.r) && Refs(t.r) <= Refs(t);
    assert b.Node? ==> b.n in Refs(b);
    assert Agree(Refs(b) - {Ref(b, nil)}, M, M');
    Reparented(b, y, x, nil, M, M');
    FrameT(t.l, x, nil, M, M');
    FrameT(t.r.r, y, nil, M, M');
  }

  lemma RightRotateLinked(ctx: Ctx, t: Tree, M: Mem, M': Mem, root: Rbt, root': Rbt, nil: Rbt)
    requires t.Node? && t.l.Node? && Linked(ctx, t, M, root, nil)
    requires RotateWrites(M, M', root, root', nil, t.n, t.l.n, Ref(t.l.r, nil), false)
    ensures Linked(ctx, RightRotated(t), M', root', nil)
  {
    RightRotateNodes(ctx, t, M, root, nil);
    RightRotateBelow(ctx, t, M, M', root, root', nil);
    assert t.l.r.Node? ==> t.l.r.n in Refs(t.l.r);
    RotateAbove(ctx, t, M, M', root, root', nil, t.l.n, Ref(t.l.r, nil), false);
    RotatedSep(t);
    hide LinkT, LinkCtx, RotateWrites;
  }

  /** The subtree that a rotation leaves. */
  lemma RightRotateBelow(ctx: Ctx, t: Tree, M: Mem, M': Mem, root: Rbt, root': Rbt, nil: Rbt)
    requires t.Node? && t.l.Node? && Linked(ctx, t, M, root, nil)
    requires RotateWrites(M, M', root, root', nil, t.n, t.l.n, Ref(t.l.r, nil), false)
    ensures LinkT(RightRotated(t), UpRef(ctx, nil), nil, M')
  {
    hide Linked, LinkCtx, SepCtx, CtxRefs;
    BelowPath(ctx, t, M, root, nil);
    var x, y, b := t.n, t.l.n, t.l.r;
    RightRotateNodes(ctx, t, M, root, nil);
    assert LinkT(t.l, x, nil, M) && Sep(t.l) && Refs(t.l) <= Refs(t);
    assert b.Node? ==> b.n in Refs(b);
    assert Agree(Refs(b) - {Ref(b, nil)}, M, M');
    Reparented(b, y, x, nil, M, M');
    FrameT(t.r, x, nil, M, M');
    FrameT(t.l.l, y, nil, M, M');
  }

  /** The path above a rotation: its end points at the node that came up. */
  lemma RotateAbove(ctx: Ctx, t: Tree, M: Mem, M': Mem, root: Rbt, root': Rbt, nil: Rbt, y: Rbt, b: Rbt, left: bool)
    requires t.Node? && Linked(ctx, t, M, root, nil) && t.n in M && M[t.n].p == UpRef(ctx, nil)
    requires RotateWrites(M, M', root, root', nil, t.n, y, b, left)
    requires y in Refs(t) && (b == nil || b in Refs(t))
    ensures LinkCtx(ctx, y, root', nil, M') && M'.Keys == M.Keys
  {
    hide LinkT, Sep;
    Relinked(ctx, t, M, root, nil);
    PathRelinked(ctx, t.n, y, root, root', nil, M, M');
  }

  lemma Relinked(ctx: Ctx, t: Tree, M: Mem, root: Rbt, nil: Rbt)
    requires t.Node? && Linked(ctx, t, M, root, nil)
    ensures !ctx.Top? ==> ctx.n in M && ctx.n in CtxRefs(ctx) && ctx.n != nil && Ref(ctx.sib, nil) != t.n
  {
  }

  /** What a rotation at x = t.n needs to know of the nodes it writes. */
  lemma LeftRotateNodes(ctx: Ctx, t: Tree, M: Mem, root: Rbt, nil: Rbt)
    requires t.Node? && t.r.Node? && Linked(ctx, t, M, root, nil)
    ensures var x, y, b, p := t.n, t.r.n, Ref(t.r.l, nil), UpRef(ctx, nil);
      && x in M && y in M && M[x].r == y && M[x].p == p && M[y].l == b
      && (b != nil ==> b in M) && (p != nil ==> p in M)
      && x != y && b != x && b != y && p != x && p != y && (b != nil ==> b != p)
  {
    assert LinkT(t.r, t.n, nil, M) && Sep(t.r) && Refs(t.r) <= Refs(t);
    assert t.r.l.Node? ==> t.r.l.n in Refs(t.r.l) && t.r.l.n in Refs(t.r);
  }

  lemma RightRotateNodes(ctx: Ctx, t: Tree, M: Mem, root: Rbt, nil: Rbt)
    requires t.Node? && t.l.Node? && Linked(ctx, t, M, root, nil)
    ensures var x, y, b, p := t.n, t.l.n, Ref(t.l.r, nil), UpRef(ctx, nil);
      && x in M && y in M && M[x].l == y && M[x].p == p && M[y].r == b
      && (b != nil ==> b in M) && (p != nil ==> p in M)
      && x != y && b != x && b != y && p != x && p != y && (b != nil ==> b != p)
  {
    assert LinkT(t.l, t.n, nil, M) && Sep(t.l) && Refs(t.l) <= Refs(t);
    assert t.l.r.Node? ==> t.l.r.n in Refs(t.l.r) && t.l.r.n in Refs(t.l);
  }

  lemma PaintLinked(x: Ctx, t: Tree, c: Color, M: Mem, M': Mem, root: Rbt, nil: Rbt)
    requires t.Node? && Linked(x, t, M, root, nil)
    requires M'.Keys == M.Keys && M'[t.n] == M[t.n].(c := c) && Agree(M.Keys - {t.n}, M, M')
    ensures Linked(x, Paint(c, t), M', root, nil)
  {
    FrameT(t.l, t.n, nil, M, M');
    FrameT(t.r, t.n, nil, M, M');
    FrameCtx(x, t.n, root, nil, M, M');
  }

  /** The family of the node at a cut. */
  lemma Relatives(x: Ctx, t: Tree, M: Mem, root: Rbt, nil: Rbt)
    requires t.Node? && !x.Top? && Linked(x, t, M, root, nil)
    ensures t.n in M && x.n in M && t.n != x.n
    ensures M[t.n].p == x.n && M[x.n].p == UpRef(x.up, nil) && M[x.n].c == x.c
    ensures x.InL? ==> M[x.n].l == t.n && M[x.n].r == Ref(x.sib, nil) != t.n
    ensures x.InR? ==> M[x.n].r == t.n && M[x.n].l == Ref(x.sib, nil) != t.n
    ensures x.sib.Node? ==> x.sib.n in M && M[x.sib.n].c == x.sib.c
    ensures !x.up.Top? ==> x.up.n in M
  {
  }

  lemma Position(x: Ctx, t: Tree, M: Mem, root: Rbt, nil: Rbt)
    requires Linked(x, t, M, root, nil)
    ensures t.Node? ==> t.n in M && M[t.n].p == UpRef(x, nil)
    ensures x.Top? ==> root == Ref(t, nil)
    ensures t.Node? ==> t.n != nil
    ensures !x.Top? ==> x.n != nil && x.n in M && M[x.n].c == x.c
    ensures nil !in M
  {
  }

  /** The links of a node m of a subtree hanging below p. */
  ghost predicate LocalLinks(m: Rbt, t: Tree, p: Rbt, nil: Rbt, M: Mem) {
    && t.Node? && m in M
    && (M[m].l != nil ==> M[m].l in Refs(t) && M[m].l in M && M[M[m].l].p == m)
    && (M[m].r != nil ==> M[m].r in Refs(t) && M[m].r in M && M[M[m].r].p == m)
    && (M[m].p == p <==> m == t.n)
    && (m != t.n ==> M[m].p in Refs(t) && M[m].p in M && (M[M[m].p].l == m || M[M[m].p].r == m))
  }

  lemma {:induction false} SubtreeLinks(t: Tree, p: Rbt, nil: Rbt, M: Mem, m: Rbt)
    requires LinkT(t, p, nil, M) && Sep(t) && p !in Refs(t) && nil !in Refs(t) && m in Refs(t)
    ensures LocalLinks(m, t, p, nil, M)
  {
    if m in Refs(t.l) {
      SubtreeLinks(t.l, t.n, nil, M, m);
    } else if m in Refs(t.r) {
      SubtreeLinks(t.r, t.n, nil, M, m);
    }
  }

  /** What the links of a whole tree are, read node by node: child and parent links
      mirror each other, and only the root hangs below the sentinel. */
  lemma MirroredLinks(t: Tree, M: Mem, root: Rbt, nil: Rbt)
    requires Linked(Top, t, M, root, nil)
    ensures forall m :: m in M ==>
      && (M[m].l != nil ==> M[m].l in M && M[M[m].l].p == m)
      && (M[m].r != nil ==> M[m].r in M && M[M[m].r].p == m)
      && (M[m].p == nil <==> m == root)
      && (m != root ==> M[m].p in M && (M[M[m].p].l == m || M[M[m].p].r == m))
  {
    forall m | m in M
      ensures LocalLinks(m, t, nil, nil, M) && t.Node? && root == t.n
    {
      SubtreeLinks(t, nil, nil, M, m);
    }
  }

  lemma TreeIsEmpty(t: Tree, M: Mem, root: Rbt, nil: Rbt)
    requires Linked(Top, t, M, root, nil)
    ensures root == nil <==> M.Keys == {}
    ensures root == nil <==> t.Leaf?
    ensures root == Ref(t, nil)
  {
  }

  lemma {:induction false} RootOnPath(x: Ctx, t: Tree, M: Mem, root: Rbt, nil: Rbt)
    requires Linked(x, t, M, root, nil) && !x.Top?
    ensures root in CtxRefs(x) && root != Ref(t, nil)
    decreases x
  {
    LinkedUp(x, t, M, root, nil);
    if !x.up.Top? {
      RootOnPath(x.up, Join(x, t), M, root, nil);
    }
  }

  /** Where the position at a cut stands: it is root exactly at the top. */
  lemma Place(x: Ctx, t: Tree, M: Mem, root: Rbt, nil: Rbt)
    requires Linked(x, t, M, root, nil)
    ensures nil !in M && (Ref(t, nil) == root <==> x.Top?)
    ensures t.Node? ==> t.n in M && M[t.n].p == UpRef(x, nil) && M[t.n].c == t.c
  {
    if !x.Top? {
      RootOnPath(x, t, M, root, nil);
    }
  }

  /** The children of the parent of a position. */
  lemma Siblings(x: Ctx, t: Tree, M: Mem, root: Rbt, nil: Rbt)
    requires Linked(x, t, M, root, nil)
    ensures !x.Top? ==> x.n in M && M[x.n].l == (if x.InL? then Ref(t, nil) else Ref(x.sib, nil))
    ensures !x.Top? ==> M[x.n].r == (if x.InL? then Ref(x.sib, nil) else Ref(t, nil))
    ensures !x.Top? && x.sib.Node? ==> x.sib.n != Ref(t, nil)
    ensures !x.Top? ==> x.n != Ref(t, nil) && (t.Node? ==> (t.l.Node? ==> t.l.n != x.n) && (t.r.Node? ==> t.r.n != x.n))
  {
    if x.Top? {
      return;
    }
    assert t.Node? ==> Refs(t.l) <= Refs(t) && Refs(t.r) <= Refs(t);
    assert x.sib.Node? ==> x.sib.n in Refs(x.sib) && x.sib.n in M;
    assert t.Node? ==> t.n in Refs(t);
    assert x.n in CtxRefs(x);
  }

  lemma Children(x: Ctx, t: Tree, M: Mem, root: Rbt, nil: Rbt)
    requires t.Node? && Linked(x, t, M, root, nil)
    ensures t.n in M && M[t.n] == Cell(t.k, t.c, Ref(t.l, nil), Ref(t.r, nil), UpRef(x, nil))
    ensures t.l.Node? ==> t.l.n in M && M[t.l.n].c == t.l.c && t.l.n != t.n
    ensures t.r.Node? ==> t.r.n in M && M[t.r.n].c == t.r.c && t.r.n != t.n
  {
    assert LinkT(t.l, t.n, nil, M) && LinkT(t.r, t.n, nil, M);
  }

  // ---------- attaching, splicing out, changing a key ----------

  lemma AttachLinked(x: Ctx, t: Tree, z: Rbt, key: int, left: bool, M: Mem, M': Mem, root: Rbt, nil: Rbt)
    requires t.Node? && Linked(x, t, M, root, nil) && z !in M && z != nil
    requires if left then t.l.Leaf? else t.r.Leaf?
    requires M'.Keys == M.Keys + {z} && M'[z] == Cell(key, Red, nil, nil, t.n)
    requires M'[t.n] == (if left then M[t.n].(l := z) else M[t.n].(r := z))
    requires Agree(M.Keys - {t.n}, M, M')
    ensures Linked(if left then InL(t.n, t.c, t.k, t.r, x) else InR(t.n, t.c, t.k, t.l, x),
                   Node(z, Red, key, Leaf, Leaf), M', root, nil)
  {
    FrameT(t.l, t.n, nil, M, M');
    FrameT(t.r, t.n, nil, M, M');
    FrameCtx(x, t.n, root, nil, M, M');
  }

  lemma SingleLinked(z: Rbt, key: int, M: Mem, M': Mem, root: Rbt, nil: Rbt)
    requires Linked(Top, Leaf, M, root, nil) && z != nil
    requires M'.Keys == M.Keys + {z} && M'[z] == Cell(key, Red, nil, nil, nil)
    ensures Linked(Top, Node(z, Red, key, Leaf, Leaf), M', z, nil)
  {
  }

  lemma SpliceLinked(x: Ctx, t: Tree, s: Tree, M: Mem, M': Mem, root: Rbt, root': Rbt, nil: Rbt)
    requires t.Node? && Linked(x, t, M, root, nil)
    requires (t.l.Leaf? && s == t.r) || (t.r.Leaf? && s == t.l)
    requires M'.Keys == M.Keys - {t.n}
    requires s.Node? ==> s.n in M' && s.n in M && M'[s.n] == M[s.n].(p := UpRef(x, nil))
    requires if x.Top? then root' == Ref(s, nil)
             else root' == root && x.n in M' && x.n in M && M'[x.n] == Redirect(M[x.n], t.n, Ref(s, nil))
    requires forall n :: n in M' && (s.Node? ==> n != s.n) && n != UpRef(x, nil) ==> n in M && M'[n] == M[n]
    ensures Linked(x, s, M', root', nil)
  {
    assert s.Node? ==> s.n in Refs(s);
    assert !x.Top? ==> x.n in CtxRefs(x);
    Reparented(s, t.n, UpRef(x, nil), nil, M, M');
    PathRelinked(x, t.n, Ref(s, nil), root, root', nil, M, M');
  }

  lemma SuccessorCut(x: Ctx, t: Tree, M: Mem, root: Rbt, nil: Rbt) returns (v: Ctx, m: Tree)
    requires t.Node? && t.r.Node? && Linked(x, t, M, root, nil)
    ensures (v, m) == MinCut(InR(t.n, t.c, t.k, t.l, x), t.r)
    ensures m.Node? && m.l.Leaf? && Linked(v, m, M, root, nil) && Plug(v, m) == Plug(x, t)
    ensures OnPath(v, t.n) && m.n != t.n && t.n !in Refs(t.r)
  {
    var x1 := InR(t.n, t.c, t.k, t.l, x);
    v, m := MinCut(x1, t.r).0, MinCut(x1, t.r).1;
    MinCutKeys(x1, t.r);
    LinkedUp(x1, t.r, M, root, nil);
    MinCutLinked(x1, t.r, M, root, nil);
    MinCutRekey(x1, t.r, t.n, t.k);
    OnPathRefs(v, t.n);
    assert m.n in Refs(m);
  }

  ghost predicate OnPath(x: Ctx, z: Rbt) {
    !x.Top? && (x.n == z || OnPath(x.up, z))
  }

  lemma {:induction false} OnPathRefs(x: Ctx, z: Rbt)
    requires OnPath(x, z)
    ensures z in CtxRefs(x)
  {
    if x.n != z {
      OnPathRefs(x.up, z);
    }
  }

  lemma {:induction false} RekeyShape(x: Ctx, z: Rbt, k: int)
    ensures CtxRefs(Rekey(x, z, k)) == CtxRefs(x) && (SepCtx(x) ==> SepCtx(Rekey(x, z, k)))
    ensures forall nil: Rbt :: UpRef(Rekey(x, z, k), nil) == UpRef(x, nil)
  {
    if !x.Top? {
      RekeyShape(x.up, z, k);
    }
  }

  lemma {:induction false} RekeyLinkCtx(x: Ctx, child: Rbt, z: Rbt, k: int, M: Mem, M': Mem, root: Rbt, nil: Rbt)
    requires OnPath(x, z) && SepCtx(x) && LinkCtx(x, child, root, nil, M)
    requires z in M && z in M' && M'[z] == M[z].(i := k) && Agree(CtxRefs(x) - {z}, M, M')
    ensures LinkCtx(Rekey(x, z, k), child, root, nil, M')
  {
    RekeyShape(x.up, z, k);
    if x.n == z {
      FrameT(x.sib, x.n, nil, M, M');
      FrameCtx(x.up, x.n, root, nil, M, M');
    } else {
      OnPathRefs(x.up, z);
      FrameT(x.sib, x.n, nil, M, M');
      RekeyLinkCtx(x.up, x.n, z, k, M, M', root, nil);
    }
  }

  lemma RekeyLinked(x: Ctx, t: Tree, z: Rbt, k: int, M: Mem, M': Mem, root: Rbt, nil: Rbt)
    requires OnPath(x, z) && Linked(x, t, M, root, nil)
    requires M'.Keys == M.Keys && z in M && M'[z] == M[z].(i := k) && Agree(M.Keys - {z}, M, M')
    ensures Linked(Rekey(x, z, k), t, M', root, nil)
  {
    OnPathRefs(x, z);
    RekeyShape(x, z, k);
    FrameT(t, UpRef(x, nil), nil, M, M');
    RekeyLinkCtx(x, Ref(t, nil), z, k, M, M', root, nil);
  }

  lemma {:induction false} MinCutRekey(x: Ctx, t: Tree, z: Rbt, k: int)
    requires t.Node? && OnPath(x, z) && z !in Refs(t)
    ensures OnPath(MinCut(x, t).0, z)
    ensures MinCut(Rekey(x, z, k), t) == (Rekey(MinCut(x, t).0, z, k), MinCut(x, t).1)
    decreases t
  {
    if t.l.Node? {
      MinCutRekey(InL(t.n, t.c, t.k, t.r, x), t.l, z, k);
    }
  }

  lemma {:induction false} MinCutLinked(x: Ctx, t: Tree, M: Mem, root: Rbt, nil: Rbt)
    requires t.Node? && Linked(x, t, M, root, nil)
    ensures Linked(MinCut(x, t).0, MinCut(x, t).1, M, root, nil)
    decreases t
  {
    if t.l.Node? {
      LinkedUp(InL(t.n, t.c, t.k, t.r, x), t.l, M, root, nil);
      MinCutLinked(InL(t.n, t.c, t.k, t.r, x), t.l, M, root, nil);
    }
  }

  lemma {:induction false} MaxCutLinked(x: Ctx, t: Tree, M: Mem, root: Rbt, nil: Rbt)
    requires t.Node? && Linked(x, t, M, root, nil)
    ensures Linked(MaxCut(x, t).0, MaxCut(x, t).1, M, root, nil)
    decreases t
  {
    if t.r.Node? {
      LinkedUp(InR(t.n, t.c, t.k, t.l, x), t.r, M, root, nil);
      MaxCutLinked(InR(t.n, t.c, t.k, t.l, x), t.r, M, root, nil);
    }
  }

  /** The cut at which the fixup of a deletion starts, all keys in place. */
  lemma DeletePrepared(u: Ctx, t: Tree, v: Ctx, m: Tree, s: Tree) returns (v': Ctx, h: int)
    requires RedBlack(Plug(u, t)) && Sorted(Whole(u, t)) && t.Node?
    requires if t.l.Leaf? || t.r.Leaf? then (v, m) == (u, t) else (v, m) == MinCut(InR(t.n, t.c, t.k, t.l, u), t.r)
    requires (m.l.Leaf? && s == m.r) || (m.r.Leaf? && s == m.l)
    requires m.Node? && (t.l.Node? && t.r.Node? ==> t.n !in Refs(t.r))
    ensures v' == if t.l.Leaf? || t.r.Leaf? then v else Rekey(v, t.n, m.k)
    ensures if m.c == Black then DeleteCut(v', s, h) else RedBlack(Plug(v', s))
    ensures Sorted(Whole(v', s)) && Elems(Whole(v', s)) == Elems(Whole(u, t)) - {t.k}
    ensures forall nil: Rbt :: UpRef(v', nil) == UpRef(v, nil)
  {
    if t.l.Leaf? || t.r.Leaf? {
      v' := v;
      h := SpliceCut(v, m, s);
      SpliceKeys(u, t, s);
    } else {
      var x1 := InR(t.n, t.c, t.k, t.l, u);
      v' := Rekey(v, t.n, m.k);
      MinCutKeys(x1, t.r);
      MinCutRekey(x1, t.r, t.n, m.k);
      ReplaceKeys(u, t);
      h := SpliceCut(v, m, s);
      RekeyRb(v, t.n, m.k, if m.c == Black then h + 1 else h);
      RekeyShape(v, t.n, m.k);
    }
    if m.c == Red {
      var g' := PlugRb(v', s, h);
    }
  }

  /** What a turn of rb_delete_fixup keeps. */
  lemma DeleteTurnKeeps(x: Ctx, t: Tree, h: int) returns (h': int)
    requires DeleteCut(x, t, h) && !x.Top? && ColorOf(t) == Black
    ensures x.sib.Node?
    ensures var (x', t') := DeleteStep(x, t);
      && DeleteCut(x', t', h') && DeleteMeasure(x', t') < DeleteMeasure(x, t) && Whole(x', t') == Whole(x, t)
  {
    BrotherExists(x, t, h);
    h' := DeleteStepOk(x, t, h);
    DeleteStepKeys(x, t);
  }

  class NameTree {
    const nil: Rbt
    var root: Rbt
    ghost var nodes: set<Rbt>
    ghost var tree: Tree

    ghost predicate Valid()
      reads this, nodes, nil
    {
      && Linked(Top, tree, Snap(nodes), root, nil) && nil.c == Black
      && RedBlack(tree) && Sorted(Inorder(tree))
    }

    // init_rbt
    constructor ()
      ensures Valid() && tree == Leaf && fresh(nil)
    {
      nil := new Rbt.Sentinel();
      root := nil;
      nodes, tree := {}, Leaf;
      assert Rb(Leaf, 0);
    }

    /** The node holding key (di 0), or the node below which it belongs (left
        if di is -1, right if 1). */
    method GetNodeByKey(key: int) returns (node: Rbt, di: int, ghost x: Ctx, ghost t: Tree)
      requires Valid()
      ensures Plug(x, t) == tree && Linked(x, t, Snap(nodes), root, nil) && node == Ref(t, nil)
      ensures t.Leaf? ==> tree.Leaf? && x.Top? && di == 0
      ensures Around(x, key)
      ensures t.Node? ==> if di == 0 then key == t.k else if di == -1 then key < t.k && t.l.Leaf? else
        di == 1 && key > t.k && t.r.Leaf?
      ensures node == nil <==> nodes == {}
      ensures key in Keys(tree) <==> node != nil && di == 0
      ensures node != nil ==> node in nodes && if di == 0 then node.i == key else if di == -1 then
        key < node.i && node.l == nil else di == 1 && key > node.i && node.r == nil
    {
      hide Elems, Inorder, RedBlack;
      node := root;
      x, t := Top, tree;
      TreeIsEmpty(t, Snap(nodes), root, nil);
      if node == nil {
        SearchDone(x, t, key);
        return node, 0, x, t;
      }
      while true
        invariant Plug(x, t) == tree && Linked(x, t, Snap(nodes), root, nil) && t.Node? && node == t.n && node in nodes
        invariant Sorted(Whole(x, t)) && Around(x, key)
        decreases t
      {
        Children(x, t, Snap(nodes), root, nil);
        SearchStep(x, t, key);
        if key < node.i {
          if node.l == nil {
            di := -1;
            break;
          }
          x, t := InL(t.n, t.c, t.k, t.r, x), t.l;
          node := node.l;
          LinkedUp(x, t, Snap(nodes), root, nil);
          WholeUp(x, t);
        } else if key > node.i {
          if node.r == nil {
            di := 1;
            break;
          }
          x, t := InR(t.n, t.c, t.k, t.l, x), t.r;
          node := node.r;
          LinkedUp(x, t, Snap(nodes), root, nil);
          WholeUp(x, t);
        } else {
          di := 0;
          break;
        }
      }
      PlugInorder(x, t);
      SearchDone(x, t, key);
      Position(x, t, Snap(nodes), root, nil);
    }

    method Min(z: Rbt, ghost x: Ctx, ghost t: Tree) returns (m: Rbt)
      requires t.Node? && z == t.n && Linked(x, t, Snap(nodes), root, nil)
      ensures m == MinCut(x, t).1.n && m in nodes
    {
      m := z;
      ghost var y, s := x, t;
      Children(y, s, Snap(nodes), root, nil);
      while m.l != nil
        invariant s.Node? && m == s.n && Linked(y, s, Snap(nodes), root, nil) && MinCut(y, s) == MinCut(x, t)
        invariant m in nodes && m.l == Ref(s.l, nil) && (s.l.Node? ==> s.l.n in nodes)
        decreases s
      {
        m := m.l;
        y, s := InL(s.n, s.c, s.k, s.r, y), s.l;
        LinkedUp(y, s, Snap(nodes), root, nil);
        Children(y, s, Snap(nodes), root, nil);
      }
      assert nil !in nodes;
    }

    method Max(z: Rbt, ghost x: Ctx, ghost t: Tree) returns (m: Rbt)
      requires t.Node? && z == t.n && Linked(x, t, Snap(nodes), root, nil)
      ensures m == MaxCut(x, t).1.n && m in nodes
    {
      m := z;
      ghost var y, s := x, t;
      Children(y, s, Snap(nodes), root, nil);
      while m.r != nil
        invariant s.Node? && m == s.n && Linked(y, s, Snap(nodes), root, nil) && MaxCut(y, s) == MaxCut(x, t)
        invariant m in nodes && m.r == Ref(s.r, nil) && (s.r.Node? ==> s.r.n in nodes)
        decreases s
      {
        m := m.r;
        y, s := InR(s.n, s.c, s.k, s.l, y), s.r;
        LinkedUp(y, s, Snap(nodes), root, nil);
        Children(y, s, Snap(nodes), root, nil);
      }
      assert nil !in nodes;
    }

    /** rb_suc: the node with the next key in order, nil after the last and for nil. */
    method Successor(z: Rbt, ghost x: Ctx, ghost t: Tree) returns (y: Rbt)
      requires z == Ref(t, nil) && Linked(x, t, Snap(nodes), root, nil)
      ensures t.Leaf? ==> y == nil
      ensures t.Node? ==> var after := Inorder(t.r) + After(x);
        if after == [] then y == nil else y in nodes && y.i == after[0]
      ensures t.Node? && t.r.Node? ==> y == MinCut(InR(z, t.c, t.k, t.l, x), t.r).1.n
    {
      hide Linked, MinCut, Inorder, Before;
      Position(x, t, Snap(nodes), root, nil);
      if z == nil {
        return z;
      }
      Children(x, t, Snap(nodes), root, nil);
      if z.r != nil {
        ghost var x1 := InR(z, t.c, t.k, t.l, x);
        LinkedUp(x1, t.r, Snap(nodes), root, nil);
        y := Min(z.r, x1, t.r);
        MinCutKeys(x1, t.r);
        MinCutLinked(x1, t.r, Snap(nodes), root, nil);
        Children(MinCut(x1, t.r).0, MinCut(x1, t.r).1, Snap(nodes), root, nil);
        return;
      }
      InorderLeaf(t.r);
      var a := z;
      ghost var u, s := x, t;
      while a.p != nil && a == a.p.r
        invariant s.Node? && a == s.n && a in nodes && Linked(u, s, Snap(nodes), root, nil)
        invariant a.p == UpRef(u, nil) && After(u) == After(x) && nil !in nodes
        invariant !u.Top? ==> a.p in nodes
        decreases u
      {
        Relatives(u, s, Snap(nodes), root, nil);
        LinkedUp(u, s, Snap(nodes), root, nil);
        a := a.p;
        u, s := u.up, Join(u, s);
        Position(u, s, Snap(nodes), root, nil);
      }
      if !u.Top? {
        Relatives(u, s, Snap(nodes), root, nil);
        LinkedUp(u, s, Snap(nodes), root, nil);
        Children(u.up, Join(u, s), Snap(nodes), root, nil);
      }
      y := a.p;
    }

    /** rb_pre: the node with the previous key in order, nil before the first and for nil. */
    method Predecessor(z: Rbt, ghost x: Ctx, ghost t: Tree) returns (y: Rbt)
      requires z == Ref(t, nil) && Linked(x, t, Snap(nodes), root, nil)
      ensures t.Leaf? ==> y == nil
      ensures t.Node? ==> var before := Before(x) + Inorder(t.l);
        if before == [] then y == nil else y in nodes && y.i == before[|before| - 1]
    {
      hide Linked, MaxCut, Inorder, After;
      Position(x, t, Snap(nodes), root, nil);
      if z == nil {
        return z;
      }
      Children(x, t, Snap(nodes), root, nil);
      if z.l != nil {
        ghost var x1 := InL(z, t.c, t.k, t.r, x);
        LinkedUp(x1, t.l, Snap(nodes), root, nil);
        y := Max(z.l, x1, t.l);
        MaxCutKeys(x1, t.l);
        MaxCutLinked(x1, t.l, Snap(nodes), root, nil);
        Children(MaxCut(x1, t.l).0, MaxCut(x1, t.l).1, Snap(nodes), root, nil);
        return;
      }
      InorderLeaf(t.l);
      var a := z;
      ghost var u, s := x, t;
      while a.p != nil && a == a.p.l
        invariant s.Node? && a == s.n && a in nodes && Linked(u, s, Snap(nodes), root, nil)
        invariant a.p == UpRef(u, nil) && Before(u) == Before(x) && nil !in nodes
        invariant !u.Top? ==> a.p in nodes
        decreases u
      {
        Relatives(u, s, Snap(nodes), root, nil);
        LinkedUp(u, s, Snap(nodes), root, nil);
        a := a.p;
        u, s := u.up, Join(u, s);
        Position(u, s, Snap(nodes), root, nil);
      }
      if !u.Top? {
        Relatives(u, s, Snap(nodes), root, nil);
        LinkedUp(u, s, Snap(nodes), root, nil);
        Children(u.up, Join(u, s), Snap(nodes), root, nil);
      }
      y := a.p;
    }

    // l(n) = m
    method SetL(n: Rbt, m: Rbt)
      requires n in nodes
      modifies n`l
      ensures n.l == m && Snap(nodes) == old(Snap(nodes))[n := old(Snap(nodes))[n].(l := m)]
    {
      n.l := m;
    }

    // r(n) = m
    method SetR(n: Rbt, m: Rbt)
      requires n in nodes
      modifies n`r
      ensures n.r == m && Snap(nodes) == old(Snap(nodes))[n := old(Snap(nodes))[n].(r := m)]
    {
      n.r := m;
    }

    // p(n) = m
    method SetP(n: Rbt, m: Rbt)
      requires n in nodes
      modifies n`p
      ensures n.p == m && Snap(nodes) == old(Snap(nodes))[n := old(Snap(nodes))[n].(p := m)]
    {
      n.p := m;
    }

    /** y takes the place of x below the parent of x, or as the root. */
    method Replace(x: Rbt, y: Rbt)
      requires x in nodes && (x.p != nil ==> x.p in nodes)
      modifies this`root, nodes
      ensures x.p == old(x.p) && (x.p == nil ==> root == y && Snap(nodes) == old(Snap(nodes)))
      ensures x.p != nil ==>
        && root == old(root)
        && Snap(nodes) == old(Snap(nodes))[x.p := Redirect(old(Snap(nodes))[x.p], x, y)]
    {
      if x.p == nil {
        root := y;
      } else if x.p.l == x {
        x.p.l := y;
      } else if x.p.r == x {
        x.p.r := y;
      }
    }

    method LeftRotate(x: Rbt, ghost ctx: Ctx, ghost t: Tree)
      requires t.Node? && t.n == x && t.r.Node? && Linked(ctx, t, Snap(nodes), root, nil)
      modifies this`root, nodes
      ensures Linked(ctx, LeftRotated(t), Snap(nodes), root, nil)
    {
      hide Linked, Snap, RotateWrites;
      ghost var M := Snap(nodes);
      LeftRotateNodes(ctx, t, M, root, nil);
      SnapAt(nodes);
      var y := x.r;
      SetP(y, x.p);
      SetR(x, y.l);
      if y.l != nil {
        SetP(y.l, x);
      }
      Replace(x, y);
      SetL(y, x);
      SetP(x, y);
      RotateMemWrites(M, old(root), nil, x, y, M[y].l, true);
      LeftRotateLinked(ctx, t, M, Snap(nodes), old(root), root, nil);
    }

    method RightRotate(x: Rbt, ghost ctx: Ctx, ghost t: Tree)
      requires t.Node? && t.n == x && t.l.Node? && Linked(ctx, t, Snap(nodes), root, nil)
      modifies this`root, nodes
      ensures Linked(ctx, RightRotated(t), Snap(nodes), root, nil)
    {
      hide Linked, Snap, RotateWrites;
      ghost var M := Snap(nodes);
      RightRotateNodes(ctx, t, M, root, nil);
      SnapAt(nodes);
      var y := x.l;
      SetP(y, x.p);
      SetL(x, y.r);
      if y.r != nil {
        SetP(y.r, x);
      }
      Replace(x, y);
      SetR(y, x);
      SetP(x, y);
      RotateMemWrites(M, old(root), nil, x, y, M[y].r, false);
      RightRotateLinked(ctx, t, M, Snap(nodes), old(root), root, nil);
    }

    // c(n) = c
    method SetColor(n: Rbt, c: Color, ghost x: Ctx, ghost t: Tree)
      requires t.Node? && n == t.n && Linked(x, t, Snap(nodes), root, nil)
      modifies nodes
      ensures Linked(x, Paint(c, t), Snap(nodes), root, nil)
      ensures forall m :: m in nodes ==> m.l == old(m.l) && m.r == old(m.r) && m.p == old(m.p)
    {
      ghost var M := Snap(nodes);
      n.c := c;
      PaintLinked(x, t, c, M, Snap(nodes), root, nil);
    }

    /** One turn of rb_insert_fixup when the parent of z is a left child. */
    method InsertTurnLeft(z: Rbt, ghost x: Ctx, ghost t: Tree) returns (z': Rbt, ghost x': Ctx, ghost t': Tree)
      requires t.Node? && z == t.n && ParentColor(x) == Red && x.up.InL? && nil.c == Black
      requires Linked(x, t, Snap(nodes), root, nil)
      modifies this`root, nodes
      ensures t'.Node? && z' == t'.n && (x', t') == InsertStep(x, t)
      ensures Linked(x', t', Snap(nodes), root, nil)
    {
      hide Linked;
      ghost var g := x.up;
      x', t' := InsertStep(x, t).0, InsertStep(x, t).1;
      z' := z;
      Relatives(x, t, Snap(nodes), root, nil);
      LinkedUp(x, t, Snap(nodes), root, nil);
      Relatives(g, Join(x, t), Snap(nodes), root, nil);
      var y := z.p.p.r;
      LinkedUp(g, Join(x, t), Snap(nodes), root, nil);
      assert y == Ref(g.sib, nil) && y.c == ColorOf(g.sib);
      if y.c == Red {
        ghost var u := InR(g.n, g.c, g.k, Join(x, t), g.up);
        LinkedUp(u, g.sib, Snap(nodes), root, nil);
        SetColor(y, Black, u, g.sib);
        LinkedUp(u, Blacken(g.sib), Snap(nodes), root, nil);
        ghost var g1 := WithSibling(g, Blacken(g.sib));
        LinkedUp(g1, Join(x, t), Snap(nodes), root, nil);
        SetColor(z.p, Black, g1, Join(x, t));
        LinkedUp(g1, Paint(Black, Join(x, t)), Snap(nodes), root, nil);
        SetColor(z.p.p, Red, g.up, Join(g1, Paint(Black, Join(x, t))));
        z' := z.p.p;
      } else if z == z.p.r {
        z' := z.p;
        LeftRotate(z', g, Join(x, t));
        LinkedUp(x', t', Snap(nodes), root, nil);
      } else {
        SetColor(z.p, Black, g, Join(x, t));
        ghost var p1 := Paint(Black, Join(x, t));
        LinkedUp(g, p1, Snap(nodes), root, nil);
        SetColor(z.p.p, Red, g.up, Join(g, p1));
        RightRotate(z.p.p, g.up, Paint(Red, Join(g, p1)));
        LinkedUp(x', t', Snap(nodes), root, nil);
      }
    }

    /** One turn of rb_insert_fixup when the parent of z is a right child. */
    method InsertTurnRight(z: Rbt, ghost x: Ctx, ghost t: Tree) returns (z': Rbt, ghost x': Ctx, ghost t': Tree)
      requires t.Node? && z == t.n && ParentColor(x) == Red && x.up.InR? && nil.c == Black
      requires Linked(x, t, Snap(nodes), root, nil)
      modifies this`root, nodes
      ensures t'.Node? && z' == t'.n && (x', t') == InsertStep(x, t)
      ensures Linked(x', t', Snap(nodes), root, nil)
    {
      hide Linked;
      ghost var g := x.up;
      x', t' := InsertStep(x, t).0, InsertStep(x, t).1;
      z' := z;
      Relatives(x, t, Snap(nodes), root, nil);
      LinkedUp(x, t, Snap(nodes), root, nil);
      Relatives(g, Join(x, t), Snap(nodes), root, nil);
      var y := z.p.p.l;
      LinkedUp(g, Join(x, t), Snap(nodes), root, nil);
      assert y == Ref(g.sib, nil) && y.c == ColorOf(g.sib);
      if y.c == Red {
        ghost var u := InL(g.n, g.c, g.k, Join(x, t), g.up);
        LinkedUp(u, g.sib, Snap(nodes), root, nil);
        SetColor(y, Black, u, g.sib);
        LinkedUp(u, Blacken(g.sib), Snap(nodes), root, nil);
        ghost var g1 := WithSibling(g, Blacken(g.sib));
        LinkedUp(g1, Join(x, t), Snap(nodes), root, nil);
        SetColor(z.p, Black, g1, Join(x, t));
        LinkedUp(g1, Paint(Black, Join(x, t)), Snap(nodes), root, nil);
        SetColor(z.p.p, Red, g.up, Join(g1, Paint(Black, Join(x, t))));
        z' := z.p.p;
      } else if z == z.p.l {
        z' := z.p;
        RightRotate(z', g, Join(x, t));
        LinkedUp(x', t', Snap(nodes), root, nil);
      } else {
        SetColor(z.p, Black, g, Join(x, t));
        ghost var p1 := Paint(Black, Join(x, t));
        LinkedUp(g, p1, Snap(nodes), root, nil);
        SetColor(z.p.p, Red, g.up, Join(g, p1));
        LeftRotate(z.p.p, g.up, Paint(Red, Join(g, p1)));
        LinkedUp(x', t', Snap(nodes), root, nil);
      }
    }

    /** Case 3 of rb_delete_fixup for a left child: w is black with its inner child alone red. */
    method DeleteCase3Left(z: Rbt, w: Rbt, ghost x: Ctx, ghost t: Tree, ghost h: int)
      returns (z': Rbt, ghost x': Ctx, ghost t': Tree)
      requires x.InL? && DeleteCut(x, t, h) && ColorOf(t) == Black && nil.c == Black
      requires x.sib.Node? && w == x.sib.n && x.sib.c == Black
      requires ColorOf(x.sib.l) == Red && ColorOf(x.sib.r) == Black
      requires Linked(x, t, Snap(nodes), root, nil) && z == Ref(t, nil) && z.p == x.n
      modifies this`root, nodes
      ensures x.sib.Node? && (x', t') == DeleteStep(x, t)
      ensures Linked(x', t', Snap(nodes), root, nil) && z' == Ref(t', nil) && z'.p == UpRef(x', nil)
    {
      hide Linked, DeleteCut, CtxRb, Rb;
      BrotherExists(x, t, h);
      x', t' := DeleteStep(x, t).0, DeleteStep(x, t).1;
      z' := z;
      ghost var up, b := x.up, x.sib;
      ghost var y := InR(x.n, x.c, x.k, t, up);   // the cut at w
      LinkedUp(x, t, Snap(nodes), root, nil);
      LinkedUp(y, b, Snap(nodes), root, nil);
      Relatives(y, b, Snap(nodes), root, nil);
      Children(y, b, Snap(nodes), root, nil);
      ghost var yl := InL(b.n, b.c, b.k, b.r, y);
      LinkedUp(yl, b.l, Snap(nodes), root, nil);
      SetColor(w.l, Black, yl, b.l);
      LinkedUp(yl, Paint(Black, b.l), Snap(nodes), root, nil);
      SetColor(w, Red, y, Join(yl, Paint(Black, b.l)));
      RightRotate(w, y, Paint(Red, Join(yl, Paint(Black, b.l))));
      LinkedUp(y, x'.sib, Snap(nodes), root, nil);
      LinkedUp(x', t, Snap(nodes), root, nil);
      Position(x', t', Snap(nodes), root, nil);
    }

    /** Case 4 of rb_delete_fixup for a left child: w is black with its outer child red. */
    method DeleteCase4Left(z: Rbt, w: Rbt, ghost x: Ctx, ghost t: Tree, ghost h: int)
      returns (z': Rbt, ghost x': Ctx, ghost t': Tree)
      requires x.InL? && DeleteCut(x, t, h) && ColorOf(t) == Black && nil.c == Black
      requires x.sib.Node? && w == x.sib.n && x.sib.c == Black
      requires ColorOf(x.sib.r) == Red
      requires Linked(x, t, Snap(nodes), root, nil) && z == Ref(t, nil) && z.p == x.n
      modifies this`root, nodes
      ensures x.sib.Node? && (x', t') == DeleteStep(x, t)
      ensures Linked(x', t', Snap(nodes), root, nil) && z' == Ref(t', nil) && z'.p == UpRef(x', nil)
    {
      hide Linked, DeleteCut, CtxRb, Rb;
      BrotherExists(x, t, h);
      x', t' := DeleteStep(x, t).0, DeleteStep(x, t).1;
      z' := z;
      ghost var up, b := x.up, x.sib;
      ghost var y := InR(x.n, x.c, x.k, t, up);   // the cut at w
      LinkedUp(x, t, Snap(nodes), root, nil);
      LinkedUp(y, b, Snap(nodes), root, nil);
      Relatives(y, b, Snap(nodes), root, nil);
      Children(y, b, Snap(nodes), root, nil);
      SetColor(w, z.p.c, y, b);
      ghost var b1 := Paint(x.c, b);
      LinkedUp(y, b1, Snap(nodes), root, nil);
      SetColor(z.p, Black, up, Join(y, b1));
      ghost var y1 := InR(x.n, Black, x.k, t, up);
      LinkedUp(y1, b1, Snap(nodes), root, nil);
      ghost var yr := InR(b.n, x.c, b.k, b.l, y1);
      LinkedUp(yr, b.r, Snap(nodes), root, nil);
      SetColor(w.r, Black, yr, b.r);
      LinkedUp(yr, Paint(Black, b.r), Snap(nodes), root, nil);
      LinkedUp(y1, Join(yr, Paint(Black, b.r)), Snap(nodes), root, nil);
      LeftRotate(z.p, up, Join(y1, Join(yr, Paint(Black, b.r))));
      LinkedPlug(up, LeftRotated(Join(y1, Join(yr, Paint(Black, b.r)))), Snap(nodes), root, nil);
      z' := root;
      Position(x', t', Snap(nodes), root, nil);
    }

    /** One turn of rb_delete_fixup when the position z is a left child; w is its brother. */
    method DeleteTurnLeft(z: Rbt, ghost x: Ctx, ghost t: Tree, ghost h: int)
      returns (z': Rbt, ghost x': Ctx, ghost t': Tree)
      requires x.InL? && DeleteCut(x, t, h) && ColorOf(t) == Black && nil.c == Black
      requires Linked(x, t, Snap(nodes), root, nil) && z == Ref(t, nil) && z.p == x.n
      modifies this`root, nodes
      ensures x.sib.Node? && (x', t') == DeleteStep(x, t)
      ensures Linked(x', t', Snap(nodes), root, nil) && z' == Ref(t', nil) && z'.p == UpRef(x', nil)
    {
      hide Linked, DeleteCut, CtxRb, Rb;
      BrotherExists(x, t, h);
      x', t' := DeleteStep(x, t).0, DeleteStep(x, t).1;
      z' := z;
      ghost var up, b := x.up, x.sib;
      ghost var y := InR(x.n, x.c, x.k, t, up);   // the cut at w
      LinkedUp(x, t, Snap(nodes), root, nil);
      LinkedUp(y, b, Snap(nodes), root, nil);
      Relatives(y, b, Snap(nodes), root, nil);
      Children(y, b, Snap(nodes), root, nil);
      var w := z.p.r;
      if w.c == Red {
        SetColor(w, Black, y, b);
        LinkedUp(y, Paint(Black, b), Snap(nodes), root, nil);
        SetColor(z.p, Red, up, Join(y, Paint(Black, b)));
        LeftRotate(z.p, up, Paint(Red, Join(y, Paint(Black, b))));
        LinkedUp(x'.up, Node(x.n, Red, x.k, t, b.l), Snap(nodes), root, nil);
        LinkedUp(x', t', Snap(nodes), root, nil);
      } else if w.l.c == Black && w.r.c == Black {
        SetColor(w, Red, y, b);
        LinkedUp(y, Paint(Red, b), Snap(nodes), root, nil);
        z' := z.p;
      } else if w.r.c == Black {
        z', x', t' := DeleteCase3Left(z, w, x, t, h);
      } else {
        z', x', t' := DeleteCase4Left(z, w, x, t, h);
      }
      Position(x', t', Snap(nodes), root, nil);
    }

    /** Case 3 of rb_delete_fixup for a right child: w is black with its inner child alone red. */
    method DeleteCase3Right(z: Rbt, w: Rbt, ghost x: Ctx, ghost t: Tree, ghost h: int)
      returns (z': Rbt, ghost x': Ctx, ghost t': Tree)
      requires x.InR? && DeleteCut(x, t, h) && ColorOf(t) == Black && nil.c == Black
      requires x.sib.Node? && w == x.sib.n && x.sib.c == Black
      requires ColorOf(x.sib.r) == Red && ColorOf(x.sib.l) == Black
      requires Linked(x, t, Snap(nodes), root, nil) && z == Ref(t, nil) && z.p == x.n
      modifies this`root, nodes
      ensures x.sib.Node? && (x', t') == DeleteStep(x, t)
      ensures Linked(x', t', Snap(nodes), root, nil) && z' == Ref(t', nil) && z'.p == UpRef(x', nil)
    {
      hide Linked, DeleteCut, CtxRb, Rb;
      BrotherExists(x, t, h);
      x', t' := DeleteStep(x, t).0, DeleteStep(x, t).1;
      z' := z;
      ghost var up, b := x.up, x.sib;
      ghost var y := InL(x.n, x.c, x.k, t, up);   // the cut at w
      LinkedUp(x, t, Snap(nodes), root, nil);
      LinkedUp(y, b, Snap(nodes), root, nil);
      Relatives(y, b, Snap(nodes), root, nil);
      Children(y, b, Snap(nodes), root, nil);
      SetColor(w, Red, y, b);
      ghost var yr := InR(b.n, Red, b.k, b.l, y);
      LinkedUp(yr, b.r, Snap(nodes), root, nil);
      SetColor(w.r, Black, yr, b.r);
      LinkedUp(yr, Paint(Black, b.r), Snap(nodes), root, nil);
      LeftRotate(w, y, Join(yr, Paint(Black, b.r)));
      LinkedUp(y, x'.sib, Snap(nodes), root, nil);
      LinkedUp(x', t, Snap(nodes), root, nil);
      Position(x', t', Snap(nodes), root, nil);
    }

    /** Case 4 of rb_delete_fixup for a right child: w is black with its outer child red. */
    method DeleteCase4Right(z: Rbt, w: Rbt, ghost x: Ctx, ghost t: Tree, ghost h: int)
      returns (z': Rbt, ghost x': Ctx, ghost t': Tree)
      requires x.InR? && DeleteCut(x, t, h) && ColorOf(t) == Black && nil.c == Black
      requires x.sib.Node? && w == x.sib.n && x.sib.c == Black
      requires ColorOf(x.sib.l) == Red
      requires Linked(x, t, Snap(nodes), root, nil) && z == Ref(t, nil) && z.p == x.n
      modifies this`root, nodes
      ensures x.sib.Node? && (x', t') == DeleteStep(x, t)
      ensures Linked(x', t', Snap(nodes), root, nil) && z' == Ref(t', nil) && z'.p == UpRef(x', nil)
    {
      hide Linked, DeleteCut, CtxRb, Rb;
      BrotherExists(x, t, h);
      x', t' := DeleteStep(x, t).0, DeleteStep(x, t).1;
      z' := z;
      ghost var up, b := x.up, x.sib;
      ghost var y := InL(x.n, x.c, x.k, t, up);   // the cut at w
      LinkedUp(x, t, Snap(nodes), root, nil);
      LinkedUp(y, b, Snap(nodes), root, nil);
      Relatives(y, b, Snap(nodes), root, nil);
      Children(y, b, Snap(nodes), root, nil);
      SetColor(w, z.p.c, y, b);
      ghost var yl := InL(b.n, x.c, b.k, b.r, y);
      LinkedUp(yl, b.l, Snap(nodes), root, nil);
      SetColor(w.l, Black, yl, b.l);
      ghost var b2 := Join(yl, Paint(Black, b.l));
      LinkedUp(yl, Paint(Black, b.l), Snap(nodes), root, nil);
      LinkedUp(y, b2, Snap(nodes), root, nil);
      SetColor(z.p, Black, up, Join(y, b2));
      RightRotate(z.p, up, Paint(Black, Join(y, b2)));
      LinkedPlug(up, RightRotated(Paint(Black, Join(y, b2))), Snap(nodes), root, nil);
      z' := root;
      Position(x', t', Snap(nodes), root, nil);
    }

    /** One turn of rb_delete_fixup when the position z is a right child; w is its brother. */
    method DeleteTurnRight(z: Rbt, ghost x: Ctx, ghost t: Tree, ghost h: int)
      returns (z': Rbt, ghost x': Ctx, ghost t': Tree)
      requires x.InR? && DeleteCut(x, t, h) && ColorOf(t) == Black && nil.c == Black
      requires Linked(x, t, Snap(nodes), root, nil) && z == Ref(t, nil) && z.p == x.n
      modifies this`root, nodes
      ensures x.sib.Node? && (x', t') == DeleteStep(x, t)
      ensures Linked(x', t', Snap(nodes), root, nil) && z' == Ref(t', nil) && z'.p == UpRef(x', nil)
    {
      hide Linked, DeleteCut, CtxRb, Rb;
      BrotherExists(x, t, h);
      x', t' := DeleteStep(x, t).0, DeleteStep(x, t).1;
      z' := z;
      ghost var up, b := x.up, x.sib;
      ghost var y := InL(x.n, x.c, x.k, t, up);   // the cut at w
      LinkedUp(x, t, Snap(nodes), root, nil);
      LinkedUp(y, b, Snap(nodes), root, nil);
      Relatives(y, b, Snap(nodes), root, nil);
      Children(y, b, Snap(nodes), root, nil);
      var w := z.p.l;
      if w.c == Red {
        SetColor(w, Black, y, b);
        LinkedUp(y, Paint(Black, b), Snap(nodes), root, nil);
        SetColor(z.p, Red, up, Join(y, Paint(Black, b)));
        RightRotate(z.p, up, Paint(Red, Join(y, Paint(Black, b))));
        LinkedUp(x'.up, Node(x.n, Red, x.k, b.r, t), Snap(nodes), root, nil);
        LinkedUp(x', t', Snap(nodes), root, nil);
      } else if w.l.c == Black && w.r.c == Black {
        SetColor(w, Red, y, b);
        LinkedUp(y, Paint(Red, b), Snap(nodes), root, nil);
        z' := z.p;
      } else if w.l.c == Black {
        z', x', t' := DeleteCase3Right(z, w, x, t, h);
      } else {
        z', x', t' := DeleteCase4Right(z, w, x, t, h);
      }
      Position(x', t', Snap(nodes), root, nil);
    }

    method InsertFixup(z0: Rbt, ghost x0: Ctx, ghost t0: Tree, ghost h0: int)
      requires InsertCut(x0, t0, h0) && z0 == t0.n && nil.c == Black
      requires Linked(x0, t0, Snap(nodes), root, nil)
      modifies this`root, this`tree, nodes
      ensures Linked(Top, tree, Snap(nodes), root, nil) && RedBlack(tree)
      ensures Inorder(tree) == Whole(x0, t0)
    {
      hide Linked, Whole, Inorder, Plug, RedBlack;
      var z := z0;
      ghost var x, t, h := x0, t0, h0;
      Position(x, t, Snap(nodes), root, nil);
      while z.p.c == Red
        invariant z.p != null && z.p.c == ParentColor(x) && z in nodes
        invariant InsertCut(x, t, h) && z == t.n && nil.c == Black
        invariant Linked(x, t, Snap(nodes), root, nil) && Whole(x, t) == Whole(x0, t0)
        decreases InsertMeasure(x)
      {
        Relatives(x, t, Snap(nodes), root, nil);
        LinkedUp(x, t, Snap(nodes), root, nil);
        Relatives(x.up, Join(x, t), Snap(nodes), root, nil);
        InsertStepOk(x, t, h);
        InsertStepKeys(x, t);
        ghost var x1, t1 := InsertStep(x, t).0, InsertStep(x, t).1;
        if z.p == z.p.p.l {
          z, x, t := InsertTurnLeft(z, x, t);
        } else {
          z, x, t := InsertTurnRight(z, x, t);
        }
        h := if InsertCut(x1, t1, h) then h else h + 1;
        Position(x, t, Snap(nodes), root, nil);
      }
      InsertDone(x, t, h);
      LinkedPlug(x, t, Snap(nodes), root, nil);
      Position(Top, Plug(x, t), Snap(nodes), root, nil);
      SetColor(root, Black, Top, Plug(x, t));
      tree := Blacken(Plug(x, t));
    }

    method Insert(z: Rbt)
      requires Valid() && z !in nodes && z != nil
      modifies this, nodes, z
      ensures Valid()
      ensures if old(z.i in Keys(tree)) then tree == old(tree) && nodes == old(nodes) && root == old(root)
              else Keys(tree) == old(Keys(tree) + {z.i}) && nodes == old(nodes) + {z}
    {
      hide Linked, Whole, RedBlack, Plug, Elems, Inorder, Snap, InsertCut, Before, After, Sorted;
      var node, di, x, t := GetNodeByKey(z.i);
      SnapAt(nodes);
      Position(x, t, Snap(nodes), root, nil);
      PlugInorder(x, t);
      SearchDone(x, t, z.i);
      z.p := node;
      if node != nil && di == 0 {
        return;
      }
      ghost var x1, t1 := Hang(z, node, di, x, t);
      ghost var h := AttachCut(x, t, x1, t1);
      InsertKeys(x, t, x1, t1);
      InsertFixup(z, x1, t1, h);
    }

    /** Lines 719-736 of nss.c for a key that is new: z becomes the root or a child. */
    method Hang(z: Rbt, node: Rbt, di: int, ghost x: Ctx, ghost t: Tree) returns (ghost x1: Ctx, ghost t1: Tree)
      requires Linked(x, t, Snap(nodes), root, nil) && z !in nodes && z != nil && z.p == node == Ref(t, nil)
      requires t.Leaf? ==> x.Top?
      requires t.Node? ==> (di == -1 && t.l.Leaf?) || (di == 1 && t.r.Leaf?)
      modifies this`root, this`nodes, nodes, z
      ensures nodes == old(nodes) + {z} && z.i == old(z.i) && t1 == Node(z, Red, z.i, Leaf, Leaf)
      ensures x1 == if t.Leaf? then Top else if di == -1 then InL(t.n, t.c, t.k, t.r, x) else InR(t.n, t.c, t.k, t.l, x)
      ensures Linked(x1, t1, Snap(nodes), root, nil)
    {
      hide Linked;
      ghost var M := Snap(nodes);
      Position(x, t, M, root, nil);
      if node == nil {
        root := z;
      } else if di == -1 {
        node.l := z;
      } else if di == 1 {
        node.r := z;
      }
      z.l := nil;
      z.r := nil;
      z.c := Red;
      nodes := nodes + {z};
      x1 := if t.Leaf? then Top else if di == -1 then InL(t.n, t.c, t.k, t.r, x) else InR(t.n, t.c, t.k, t.l, x);
      t1 := Node(z, Red, z.i, Leaf, Leaf);
      if t.Leaf? {
        SingleLinked(z, z.i, M, Snap(nodes), old(root), nil);
      } else {
        AttachLinked(x, t, z, z.i, di == -1, M, Snap(nodes), root, nil);
      }
    }

    method DeleteTurn(z: Rbt, ghost x: Ctx, ghost t: Tree, ghost h: int)
      returns (z': Rbt, ghost x': Ctx, ghost t': Tree)
      requires DeleteCut(x, t, h) && !x.Top? && ColorOf(t) == Black && nil.c == Black
      requires Linked(x, t, Snap(nodes), root, nil) && z == Ref(t, nil) && z.p == x.n
      modifies this`root, nodes
      ensures x.sib.Node? && (x', t') == DeleteStep(x, t)
      ensures Linked(x', t', Snap(nodes), root, nil) && z' == Ref(t', nil) && z'.p == UpRef(x', nil)
    {
      hide Linked, DeleteCut;
      Siblings(x, t, Snap(nodes), root, nil);
      BrotherExists(x, t, h);
      z', x', t' := z, x, t;
      if z == z.p.l {
        z', x', t' := DeleteTurnLeft(z, x, t, h);
      } else if z == z.p.r {
        z', x', t' := DeleteTurnRight(z, x, t, h);
      }
    }

    method DeleteFixup(z: Rbt, ghost x0: Ctx, ghost t0: Tree, ghost h0: int)
      requires DeleteCut(x0, t0, h0) && nil.c == Black
      requires Linked(x0, t0, Snap(nodes), root, nil) && z == Ref(t0, nil) && z.p == UpRef(x0, nil)
      modifies this`root, this`tree, nodes, nil
      ensures Linked(Top, tree, Snap(nodes), root, nil) && RedBlack(tree) && nil.c == Black
      ensures Inorder(tree) == Whole(x0, t0)
    {
      hide Linked, Whole, CtxRb, DeleteCut, Plug, RedBlack, DeleteStep, DeleteMeasure;
      var x := z;
      ghost var y, t, h := x0, t0, h0;
      Place(y, t, Snap(nodes), root, nil);
      while x != root && x.c == Black
        invariant DeleteCut(y, t, h) && nil.c == Black && nil !in nodes
        invariant Linked(y, t, Snap(nodes), root, nil) && Whole(y, t) == Whole(x0, t0)
        invariant x == Ref(t, nil) && x.p == UpRef(y, nil) && x.c == ColorOf(t) && (t.Node? ==> x in nodes)
        invariant x == root <==> y.Top?
        decreases DeleteMeasure(y, t)
      {
        ghost var h' := DeleteTurnKeeps(y, t, h);
        x, y, t := DeleteTurn(x, y, t, h);
        h := h';
        Place(y, t, Snap(nodes), root, nil);
      }
      DeleteDone(y, t, h);
      PaintBlack(x, y, t);
      tree := Plug(y, Blacken(t));
      LinkedPlug(y, Blacken(t), Snap(nodes), root, nil);
    }

    /** The last assignment of the fixup, where x may be the sentinel. */
    method PaintBlack(x: Rbt, ghost y: Ctx, ghost t: Tree)
      requires Linked(y, t, Snap(nodes), root, nil) && x == Ref(t, nil) && nil.c == Black && nil !in nodes
      requires t.Node? ==> x in nodes
      modifies nodes, nil
      ensures Linked(y, Blacken(t), Snap(nodes), root, nil) && nil.c == Black
    {
      hide Linked;
      ghost var M := Snap(nodes);
      x.c := Black;
      if t.Node? {
        PaintLinked(y, t, Black, M, Snap(nodes), root, nil);
      } else {
        assert Snap(nodes) == M;
      }
    }

    /** The middle of rb_delete: y, with at most one child x, leaves the tree. */
    method TakeOut(y: Rbt, ghost v: Ctx, ghost m: Tree, ghost s: Tree) returns (x: Rbt)
      requires m.Node? && y == m.n && Linked(v, m, Snap(nodes), root, nil) && nil.c == Black
      requires (m.l.Leaf? || m.r.Leaf?) && s == if m.l.Node? then m.l else m.r
      modifies this`root, this`nodes, nodes, nil
      ensures nodes == old(nodes) - {y} && Linked(v, s, Snap(nodes), root, nil) && nil.c == Black
      ensures x == Ref(s, nil) && x.p == UpRef(v, nil)
      ensures y.i == m.k && y.c == m.c
    {
      hide Linked;
      ghost var M := Snap(nodes);
      Children(v, m, M, root, nil);
      Siblings(v, m, M, root, nil);
      Position(v, m, M, root, nil);
      if y.l != nil {
        x := y.l;
      } else {
        x := y.r;
      }
      x.p := y.p;
      if y.p == nil {
        root := x;
      } else if y == y.p.l {
        y.p.l := x;
      } else if y == y.p.r {
        y.p.r := x;
      }
      nodes := nodes - {y};
      SpliceLinked(v, m, s, M, Snap(nodes), old(root), root, nil);
    }

    /** The start of rb_delete: y is z itself or, below two children, its successor. */
    method Victim(z: Rbt, ghost u: Ctx, ghost t: Tree) returns (y: Rbt, ghost v: Ctx, ghost m: Tree)
      requires t.Node? && z == t.n && Linked(u, t, Snap(nodes), root, nil)
      ensures m.Node? && y == m.n && y in nodes && z in nodes && Linked(v, m, Snap(nodes), root, nil)
      ensures if t.l.Leaf? || t.r.Leaf? then (v, m) == (u, t)
              else (v, m) == MinCut(InR(t.n, t.c, t.k, t.l, u), t.r) && OnPath(v, z) && y != z && t.n !in Refs(t.r)
    {
      hide Linked, MinCut;
      Position(u, t, Snap(nodes), root, nil);
      Children(u, t, Snap(nodes), root, nil);
      v, m := u, t;
      if z.l == nil || z.r == nil {
        y := z;
      } else {
        y := Successor(z, u, t);
        v, m := SuccessorCut(u, t, Snap(nodes), root, nil);
      }
      Children(v, m, Snap(nodes), root, nil);
    }

    // i(z) = i(y)
    method CopyKey(z: Rbt, y: Rbt, ghost v: Ctx, ghost s: Tree)
      requires Linked(v, s, Snap(nodes), root, nil) && OnPath(v, z) && z in nodes && y !in nodes && y != nil && nil !in nodes
      modifies z`i
      ensures y.i == old(y.i) && Linked(Rekey(v, z, y.i), s, Snap(nodes), root, nil)
    {
      hide Linked, Rekey, OnPath;
      ghost var M := Snap(nodes);
      z.i := y.i;
      RekeyLinked(v, s, z, y.i, M, Snap(nodes), root, nil);
    }

    method Delete(key: int) returns (y: Rbt)
      requires Valid()
      modifies this, nodes, nil
      ensures Valid()
      ensures if key !in old(Keys(tree)) then y == nil && tree == old(tree) && nodes == old(nodes)
              else y in old(nodes) && nodes == old(nodes) - {y} && Keys(tree) == old(Keys(tree)) - {key}
    {
      hide Linked, Whole, RedBlack, Plug, CtxRb, Rekey, DeleteCut, Elems, Inorder, Snap, MinCut, Before, After, Sorted, OnPath;
      var z, di, u, t := GetNodeByKey(key);
      PlugInorder(u, t);
      SearchDone(u, t, key);
      Position(u, t, Snap(nodes), root, nil);
      SnapAt(nodes);
      if z == nil || di != 0 {
        return nil;
      }
      ghost var v, m;
      y, v, m := Victim(z, u, t);
      ghost var s := if m.l.Node? then m.l else m.r;
      ghost var v', h := DeletePrepared(u, t, v, m, s);
      var x := TakeOut(y, v, m, s);
      if y != z {
        CopyKey(z, y, v, s);
      }
      if y.c == Black {
        DeleteFixup(x, v', s, h);
      } else {
        LinkedPlug(v', s, Snap(nodes), root, nil);
        PlugInorder(v', s);
        tree := Plug(v', s);
      }
    }
  }
}
