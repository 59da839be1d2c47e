/** The memtable of c0.c on the heap: nodes relinked and overwritten in place.  Every operation is
    proved to turn the tree it is given into the tree its counterpart in Avl computes. */
module Memtable {
  import opened Records
  import opened Wrappers
  import opened Avl
  import opened AvlOrder

  class C0Node {
    var key: string
    var value: string
    var left: C0Node?
    var right: C0Node?
    var ht: int
    var flag: int
    ghost var tree: Tree          // the value of the subtree
    ghost var repr: set<C0Node>   // its nodes

    ghost predicate Valid()
      reads this, repr
      ensures Valid() ==> this in repr
      decreases repr
    {
      && this in repr
      && (left != null ==> left in repr && left.repr <= repr && this !in left.repr && left.Valid())
      && (right != null ==> right in repr && right.repr <= repr && this !in right.repr && right.Valid())
      && ReprOf(left) !! ReprOf(right)
      && repr == {this} + ReprOf(left) + ReprOf(right)
      && tree == Node(key, value, flag, TreeOf(left), TreeOf(right), ht)
    }

    constructor (key: string, value: string, flag: int)
      ensures Valid() && tree == Node(key, value, flag, Null, Null, 0) && repr == {this}
    {
      this.key, this.value, this.flag := key, value, flag;
      left, right, ht := null, null, 0;
      tree := Node(key, value, flag, Null, Null, 0);
      repr := {this};
    }
  }

  ghost function TreeOf(n: C0Node?): Tree
    reads n
  {
    if n == null then Null else n.tree
  }

  ghost function ReprOf(n: C0Node?): set<C0Node>
    reads n
  {
    if n == null then {} else n.repr
  }

  ghost predicate Ok(n: C0Node?)
    reads n, ReprOf(n)
  {
    n == null || n.Valid()
  }

  /** The children of `t` are sound and apart from each other and from `t`, whatever `t` itself says. */
  ghost predicate Open(t: C0Node)
    reads t, t.left, t.right, ReprOf(t.left), ReprOf(t.right)
  {
    && Ok(t.left) && Ok(t.right)
    && t !in ReprOf(t.left) && t !in ReprOf(t.right)
    && ReprOf(t.left) !! ReprOf(t.right)
  }

  /** Makes the ghost fields of `t` agree with its children. */
  ghost method Close(t: C0Node)
    requires Open(t)
    modifies t`tree, t`repr
    ensures t.Valid()
    ensures t.tree == Node(t.key, t.value, t.flag, TreeOf(t.left), TreeOf(t.right), t.ht)
    ensures t.repr == {t} + ReprOf(t.left) + ReprOf(t.right)
  {
    t.tree := Node(t.key, t.value, t.flag, TreeOf(t.left), TreeOf(t.right), t.ht);
    t.repr := {t} + ReprOf(t.left) + ReprOf(t.right);
  }

  method Height(t: C0Node) returns (h: int)
    requires Open(t)
    ensures h == HeightOf(TreeOf(t.left), TreeOf(t.right))
  {
    var lh, rh := 0, 0;
    if t.left != null {
      lh := 1 + t.left.ht;
    }
    if t.right != null {
      rh := 1 + t.right.ht;
    }
    h := if lh > rh then lh else rh;
  }

  method BalanceFactor(t: C0Node?) returns (b: int)
    requires Ok(t)
    ensures b == BF(TreeOf(t))
  {
    if t == null {
      return 0;
    }
    assert t.Valid() && Ok(t.left) && Ok(t.right);
    var lh, rh := 0, 0;
    if t.left != null {
      lh := 1 + t.left.ht;
    }
    if t.right != null {
      rh := 1 + t.right.ht;
    }
    b := lh - rh;
  }

  /** `T->ht = height(T)`. */
  method SetHeight(t: C0Node)
    requires t.Valid()
    modifies t`ht, t`tree, t`repr
    ensures t.Valid() && t.tree == WithHeight(old(t.tree)) && t.repr == old(t.repr)
  {
    t.ht := Height(t);
    Close(t);
  }

  /** A node over two subtrees with its height recomputed. */
  ghost function Turned(key: string, value: string, flag: int, l: Tree, r: Tree): Tree {
    Node(key, value, flag, l, r, HeightOf(l, r))
  }

  /** Hangs `l` under `t` on the left and recomputes the height. */
  method AttachLeft(t: C0Node, l: C0Node?)
    requires Ok(l) && Ok(t.right)
    requires t !in ReprOf(l) && t !in ReprOf(t.right) && ReprOf(l) !! ReprOf(t.right)
    modifies t`left, t`ht, t`tree, t`repr
    ensures t.Valid() && t.left == l
    ensures t.tree == Turned(t.key, t.value, t.flag, old(TreeOf(l)), old(TreeOf(t.right)))
    ensures t.repr == {t} + old(ReprOf(l)) + old(ReprOf(t.right))
  {
    t.left := l;
    t.ht := Height(t);
    Close(t);
  }

  method AttachRight(t: C0Node, r: C0Node?)
    requires Ok(t.left) && Ok(r)
    requires t !in ReprOf(t.left) && t !in ReprOf(r) && ReprOf(t.left) !! ReprOf(r)
    modifies t`right, t`ht, t`tree, t`repr
    ensures t.Valid() && t.right == r
    ensures t.tree == Turned(t.key, t.value, t.flag, old(TreeOf(t.left)), old(TreeOf(r)))
    ensures t.repr == {t} + old(ReprOf(t.left)) + old(ReprOf(r))
  {
    t.right := r;
    t.ht := Height(t);
    Close(t);
  }

  /** Hangs `l` under `t` on the left; the height is not touched. */
  method HangLeft(t: C0Node, l: C0Node?)
    requires Ok(l) && Ok(t.right)
    requires t !in ReprOf(l) && t !in ReprOf(t.right) && ReprOf(l) !! ReprOf(t.right)
    modifies t`left, t`tree, t`repr
    ensures t.left == l && t.Valid() && t.repr == {t} + ReprOf(l) + ReprOf(t.right)
    ensures t.tree == Node(t.key, t.value, t.flag, TreeOf(l), TreeOf(t.right), t.ht)
  {
    t.left := l;
    Close(t);
  }

  method HangRight(t: C0Node, r: C0Node?)
    requires Ok(t.left) && Ok(r)
    requires t !in ReprOf(t.left) && t !in ReprOf(r) && ReprOf(t.left) !! ReprOf(r)
    modifies t`right, t`tree, t`repr
    ensures t.right == r && t.Valid() && t.repr == {t} + ReprOf(t.left) + ReprOf(r)
    ensures t.tree == Node(t.key, t.value, t.flag, TreeOf(t.left), TreeOf(r), t.ht)
  {
    t.right := r;
    Close(t);
  }

  /** The three subtrees around a right rotation are sound and apart from each other and the two nodes. */
  lemma RightPivotParts(x: C0Node, y: C0Node)
    requires x.Valid() && x.left == y
    ensures Ok(y.left) && Ok(y.right) && Ok(x.right) && x != y
    ensures x !in ReprOf(y.left) + ReprOf(y.right) + ReprOf(x.right)
    ensures y !in ReprOf(y.left) + ReprOf(y.right) + ReprOf(x.right)
    ensures ReprOf(y.left) !! ReprOf(y.right) && ReprOf(y.left) !! ReprOf(x.right) && ReprOf(y.right) !! ReprOf(x.right)
    ensures x.repr == {x} + ({y} + ReprOf(y.left) + ReprOf(y.right)) + ReprOf(x.right)
    ensures x.tree == Node(x.key, x.value, x.flag, Node(y.key, y.value, y.flag, TreeOf(y.left), TreeOf(y.right), y.ht), TreeOf(x.right), x.ht)
  {
    assert y.Valid();
  }

  lemma LeftPivotParts(x: C0Node, y: C0Node)
    requires x.Valid() && x.right == y
    ensures Ok(x.left) && Ok(y.left) && Ok(y.right) && x != y
    ensures x !in ReprOf(x.left) + ReprOf(y.left) + ReprOf(y.right)
    ensures y !in ReprOf(x.left) + ReprOf(y.left) + ReprOf(y.right)
    ensures ReprOf(x.left) !! ReprOf(y.left) && ReprOf(x.left) !! ReprOf(y.right) && ReprOf(y.left) !! ReprOf(y.right)
    ensures x.repr == {x} + ReprOf(x.left) + ({y} + ReprOf(y.left) + ReprOf(y.right))
    ensures x.tree == Node(x.key, x.value, x.flag, TreeOf(x.left), Node(y.key, y.value, y.flag, TreeOf(y.left), TreeOf(y.right), y.ht), x.ht)
  {
    assert y.Valid();
  }

  lemma SameNodes(x: C0Node, y: C0Node, a: set<C0Node>, b: set<C0Node>, c: set<C0Node>)
    ensures {y} + a + ({x} + b + c) == {x} + ({y} + a + b) + c
    ensures {y} + ({x} + a + b) + c == {x} + a + ({y} + b + c)
  {}

  lemma Apart(a: set<C0Node>, x: C0Node, b: set<C0Node>, c: set<C0Node>)
    requires x !in a && a !! b && a !! c
    ensures a !! {x} + b + c
  {}

  /** The two relinkings of a right rotation. */
  method SwingRight(x: C0Node, y: C0Node)
    requires Ok(y.left) && Ok(y.right) && Ok(x.right) && x != y
    requires x !in ReprOf(y.left) + ReprOf(y.right) + ReprOf(x.right)
    requires y !in ReprOf(y.left) + ReprOf(y.right) + ReprOf(x.right)
    requires ReprOf(y.left) !! ReprOf(y.right) && ReprOf(y.left) !! ReprOf(x.right) && ReprOf(y.right) !! ReprOf(x.right)
    modifies x, y
    ensures y.Valid() && y.repr == {y} + old(ReprOf(y.left)) + ({x} + old(ReprOf(y.right)) + old(ReprOf(x.right)))
    ensures y.tree == Turned(old(y.key), old(y.value), old(y.flag), old(TreeOf(y.left)),
                             Turned(old(x.key), old(x.value), old(x.flag), old(TreeOf(y.right)), old(TreeOf(x.right))))
  {
    Apart(ReprOf(y.left), x, ReprOf(y.right), ReprOf(x.right));
    AttachLeft(x, y.right);
    assert Ok(y.left) && ReprOf(y.left) == old(ReprOf(y.left)) && TreeOf(y.left) == old(TreeOf(y.left));
    AttachRight(y, x);
  }

  method SwingLeft(x: C0Node, y: C0Node)
    requires Ok(x.left) && Ok(y.left) && Ok(y.right) && x != y
    requires x !in ReprOf(x.left) + ReprOf(y.left) + ReprOf(y.right)
    requires y !in ReprOf(x.left) + ReprOf(y.left) + ReprOf(y.right)
    requires ReprOf(x.left) !! ReprOf(y.left) && ReprOf(x.left) !! ReprOf(y.right) && ReprOf(y.left) !! ReprOf(y.right)
    modifies x, y
    ensures y.Valid() && y.repr == {y} + ({x} + old(ReprOf(x.left)) + old(ReprOf(y.left))) + old(ReprOf(y.right))
    ensures y.tree == Turned(old(y.key), old(y.value), old(y.flag),
                             Turned(old(x.key), old(x.value), old(x.flag), old(TreeOf(x.left)), old(TreeOf(y.left))), old(TreeOf(y.right)))
  {
    Apart(ReprOf(y.right), x, ReprOf(x.left), ReprOf(y.left));
    AttachRight(x, y.left);
    assert Ok(y.right) && ReprOf(y.right) == old(ReprOf(y.right)) && TreeOf(y.right) == old(TreeOf(y.right));
    AttachLeft(y, x);
  }

  method RotateRightAt(x: C0Node) returns (y: C0Node)
    requires x.Valid() && x.left != null
    modifies x, x.left
    ensures y == old(x.left) && y.Valid() && y.tree == RotateRight(old(x.tree)) && y.repr == old(x.repr)
  {
    y := x.left;
    RightPivotParts(x, y);
    SameNodes(x, y, ReprOf(y.left), ReprOf(y.right), ReprOf(x.right));
    SwingRight(x, y);
  }

  method RotateLeftAt(x: C0Node) returns (y: C0Node)
    requires x.Valid() && x.right != null
    modifies x, x.right
    ensures y == old(x.right) && y.Valid() && y.tree == RotateLeft(old(x.tree)) && y.repr == old(x.repr)
  {
    y := x.right;
    LeftPivotParts(x, y);
    SameNodes(x, y, ReprOf(x.left), ReprOf(y.left), ReprOf(y.right));
    SwingLeft(x, y);
  }

  method LRAt(t: C0Node) returns (r: C0Node)
    requires t.Valid() && t.left != null && t.left.right != null
    modifies t, t.left, t.left.right
    ensures r.Valid() && r.tree == LR(old(t.tree)) && r.repr == old(t.repr)
  {
    var l := RotateLeftAt(t.left);
    assert Ok(t.right);
    HangLeft(t, l);
    r := RotateRightAt(t);
  }

  method RLAt(t: C0Node) returns (r: C0Node)
    requires t.Valid() && t.right != null && t.right.left != null
    modifies t, t.right, t.right.left
    ensures r.Valid() && r.tree == RL(old(t.tree)) && r.repr == old(t.repr)
  {
    var p := RotateRightAt(t.right);
    assert Ok(t.left);
    HangRight(t, p);
    r := RotateLeftAt(t);
  }

  // ---------------------------------------------------------------- insertion

  method RebalanceRightInsert(t: C0Node, key: string) returns (r: C0Node)
    requires t.Valid()
    requires BF(t.tree) == -2 ==> t.right != null && (StrCmp(key, t.right.key) <= 0 ==> t.right.left != null)
    modifies t.repr
    ensures r.Valid() && r.tree == FixRightInsert(old(t.tree), key) && r.repr == old(t.repr)
  {
    r := t;
    var bf := BalanceFactor(t);
    if bf == -2 {
      if StrCmp(key, t.right.key) > 0 {
        r := RotateLeftAt(t);
      } else {
        r := RLAt(t);
      }
    }
  }

  method RebalanceLeftInsert(t: C0Node, key: string) returns (r: C0Node)
    requires t.Valid()
    requires BF(t.tree) == 2 ==> t.left != null && (StrCmp(key, t.left.key) > 0 ==> t.left.right != null)
    modifies t.repr
    ensures r.Valid() && r.tree == FixLeftInsert(old(t.tree), key) && r.repr == old(t.repr)
  {
    r := t;
    var bf := BalanceFactor(t);
    if bf == 2 {
      if StrCmp(key, t.left.key) <= 0 {
        r := RotateRightAt(t);
      } else {
        r := LRAt(t);
      }
    }
  }

  /** The pivots an insertion rotates around exist. */
  lemma InsertPivotsExist(t: Tree, key: string, value: string, flag: int)
    requires t.Node? && Balanced(t)
    ensures StrCmp(key, t.key) > 0 ==>
      var u := t.(right := Insert(t.right, key, value, flag));
      BF(u) == -2 && StrCmp(key, u.right.key) <= 0 ==> u.right.left.Node?
    ensures StrCmp(key, t.key) < 0 ==>
      var u := t.(left := Insert(t.left, key, value, flag));
      BF(u) == 2 && StrCmp(key, u.left.key) > 0 ==> u.left.right.Node?
  {
    InsertKeepsBalance(t.right, key, value, flag);
    InsertKeepsBalance(t.left, key, value, flag);
    ArmNonNegative(t.left);
    ArmNonNegative(t.right);
    var r, l := Insert(t.right, key, value, flag), Insert(t.left, key, value, flag);
    ArmNonNegative(r.right);
    ArmNonNegative(l.left);
  }

  method InsertNode(t: C0Node?, key: string, value: string, flag: int) returns (r: C0Node)
    requires Ok(t) && Balanced(TreeOf(t))
    modifies ReprOf(t)
    ensures r.Valid() && r.tree == Insert(old(TreeOf(t)), key, value, flag)
    ensures fresh(r.repr - old(ReprOf(t)))
    decreases TreeOf(t)
  {
    if t == null {
      r := new C0Node(key, value, flag);
      return;
    }
    r := t;
    assert Open(t);
    if StrCmp(key, t.key) > 0 {
      InsertPivotsExist(t.tree, key, value, flag);
      InsertBelowRight(t, key, value, flag);
      r := RebalanceRightInsert(t, key);
    } else if StrCmp(key, t.key) < 0 {
      InsertPivotsExist(t.tree, key, value, flag);
      InsertBelowLeft(t, key, value, flag);
      r := RebalanceLeftInsert(t, key);
    }
    SetHeight(r);
  }

  method InsertBelowRight(t: C0Node, key: string, value: string, flag: int)
    requires t.Valid() && Balanced(t.tree)
    modifies t.repr
    ensures t.Valid() && t.tree == old(t.tree).(right := Insert(old(t.tree.right), key, value, flag))
    ensures fresh(t.repr - old(t.repr))
    decreases TreeOf(t), 0
  {
    assert Open(t);
    ghost var left := ReprOf(t.left);
    var r := InsertNode(t.right, key, value, flag);
    assert Ok(t.left) && ReprOf(t.left) == left && left !! r.repr;
    HangRight(t, r);
  }

  method InsertBelowLeft(t: C0Node, key: string, value: string, flag: int)
    requires t.Valid() && Balanced(t.tree)
    modifies t.repr
    ensures t.Valid() && t.tree == old(t.tree).(left := Insert(old(t.tree.left), key, value, flag))
    ensures fresh(t.repr - old(t.repr))
    decreases TreeOf(t), 0
  {
    assert Open(t);
    ghost var right := ReprOf(t.right);
    var l := InsertNode(t.left, key, value, flag);
    assert Ok(t.right) && ReprOf(t.right) == right && right !! l.repr;
    HangLeft(t, l);
  }

  // ---------------------------------------------------------------- deletion

  /** The pivots a deletion rotates around exist. */
  lemma DeletePivotsExist(u: Tree)
    requires u.Node? && Balanced(u.left) && Balanced(u.right)
    ensures BF(u) == 2 ==> u.left.Node? && (BF(u.left) < 0 ==> u.left.right.Node?)
    ensures BF(u) == -2 ==> u.right.Node? && (BF(u.right) > 0 ==> u.right.left.Node?)
  {
    ArmNonNegative(u.left);
    ArmNonNegative(u.right);
    if u.left.Node? { ArmNonNegative(u.left.left); }
    if u.right.Node? { ArmNonNegative(u.right.right); }
  }

  method RebalanceLeftHeavy(t: C0Node) returns (r: C0Node)
    requires t.Valid() && Balanced(t.tree.left) && Balanced(t.tree.right)
    modifies t.repr
    ensures r.Valid() && r.tree == FixLeftHeavy(old(t.tree)) && r.repr == old(t.repr)
  {
    r := t;
    var bf := BalanceFactor(t);
    if bf == 2 {
      DeletePivotsExist(t.tree);
      var lf := BalanceFactor(t.left);
      if lf >= 0 {
        r := RotateRightAt(t);
      } else {
        r := LRAt(t);
      }
    }
  }

  method RebalanceRightHeavy(t: C0Node) returns (r: C0Node)
    requires t.Valid() && Balanced(t.tree.left) && Balanced(t.tree.right)
    modifies t.repr
    ensures r.Valid() && r.tree == FixRightHeavy(old(t.tree)) && r.repr == old(t.repr)
  {
    r := t;
    var bf := BalanceFactor(t);
    if bf == -2 {
      DeletePivotsExist(t.tree);
      var rf := BalanceFactor(t.right);
      if rf <= 0 {
        r := RotateLeftAt(t);
      } else {
        r := RLAt(t);
      }
    }
  }

  /** The loop that walks to the inorder successor. */
  method FindLeftmost(t: C0Node) returns (p: C0Node)
    requires t.Valid()
    ensures p.key == Leftmost(t.tree).key && p.value == Leftmost(t.tree).value
  {
    p := t;
    while p.left != null
      invariant p.Valid() && Leftmost(p.tree) == Leftmost(t.tree)
      decreases p.tree
    {
      p := p.left;
    }
  }

  method DeleteNode(t: C0Node?, key: string) returns (r: C0Node?)
    requires Ok(t) && Balanced(TreeOf(t))
    modifies ReprOf(t)
    ensures Ok(r) && TreeOf(r) == Delete(old(TreeOf(t)), key) && ReprOf(r) <= old(ReprOf(t))
    decreases TreeOf(t)
  {
    if t == null {
      return null;
    }
    assert Open(t);
    var u: C0Node;
    if StrCmp(key, t.key) > 0 {
      DeleteBelowRight(t, key);
      u := RebalanceLeftHeavy(t);
    } else if StrCmp(key, t.key) < 0 {
      DeleteBelowLeft(t, key);
      u := RebalanceRightHeavy(t);
    } else if t.right != null {
      ReplaceBySuccessor(t);
      u := RebalanceLeftHeavy(t);
    } else {
      return t.left;
    }
    SetHeight(u);
    r := u;
  }

  method DeleteBelowRight(t: C0Node, key: string)
    requires t.Valid() && Balanced(t.tree)
    modifies t.repr
    ensures t.Valid() && t.tree == old(t.tree).(right := Delete(old(t.tree.right), key))
    ensures t.repr <= old(t.repr) && Balanced(t.tree.left) && Balanced(t.tree.right)
    decreases TreeOf(t), 0
  {
    assert Open(t);
    DeleteKeepsBalance(t.tree.right, key);
    var r := DeleteNode(t.right, key);
    assert Ok(t.left);
    HangRight(t, r);
  }

  method DeleteBelowLeft(t: C0Node, key: string)
    requires t.Valid() && Balanced(t.tree)
    modifies t.repr
    ensures t.Valid() && t.tree == old(t.tree).(left := Delete(old(t.tree.left), key))
    ensures t.repr <= old(t.repr) && Balanced(t.tree.left) && Balanced(t.tree.right)
    decreases TreeOf(t), 0
  {
    assert Open(t);
    DeleteKeepsBalance(t.tree.left, key);
    var r := DeleteNode(t.left, key);
    assert Ok(t.right);
    HangLeft(t, r);
  }

  /** `t` takes over a key and a value, but not a flag, and `r` as its right child. */
  method TakeOver(t: C0Node, key: string, value: string, r: C0Node?)
    requires Ok(t.left) && Ok(r)
    requires t !in ReprOf(t.left) && t !in ReprOf(r) && ReprOf(t.left) !! ReprOf(r)
    modifies t
    ensures t.Valid() && t.repr == {t} + old(ReprOf(t.left)) + ReprOf(r)
    ensures t.tree == Node(key, value, old(t.flag), old(TreeOf(t.left)), TreeOf(r), old(t.ht))
  {
    t.key := key;
    t.value := value;
    t.right := r;
    Close(t);
  }

  /** A node with a right child is replaced by its inorder successor, which is deleted below. */
  method ReplaceBySuccessor(t: C0Node)
    requires t.Valid() && Balanced(t.tree) && t.tree.right.Node?
    modifies t.repr
    ensures t.Valid() && t.repr <= old(t.repr) && Balanced(t.tree.left) && Balanced(t.tree.right)
    ensures var p := Leftmost(old(t.tree).right);
      t.tree == old(t.tree).(key := p.key, value := p.value, right := Delete(old(t.tree).right, p.key))
    decreases TreeOf(t), 0
  {
    assert Open(t);
    var p := FindLeftmost(t.right);
    var key, value := p.key, p.value;
    DeleteKeepsBalance(t.tree.right, key);
    var r := DeleteNode(t.right, key);
    assert Ok(t.left);
    TakeOver(t, key, value, r);
  }

  // ---------------------------------------------------------------- update, lookup, dump

  /** The node is overwritten wherever it is; only a match at the root is returned. */
  method UpdateNode(t: C0Node?, key: string, value: string, flag: int) returns (r: C0Node?)
    requires Ok(t)
    modifies ReprOf(t)
    ensures Ok(t) && TreeOf(t) == Update(old(TreeOf(t)), key, value, flag) && ReprOf(t) == old(ReprOf(t))
    ensures r == if t != null && StrCmp(key, old(t.key)) == 0 then t else null
    decreases TreeOf(t)
  {
    if t == null {
      return null;
    }
    assert Open(t);
    if StrCmp(key, t.key) == 0 {
      t.value, t.flag := value, flag;
      Close(t);
      return t;
    }
    if StrCmp(key, t.key) < 0 {
      var dropped := UpdateNode(t.left, key, value, flag);
      assert Ok(t.right);
    } else {
      var dropped := UpdateNode(t.right, key, value, flag);
      assert Ok(t.left);
    }
    Close(t);
    r := null;
  }

  /** `Get` as written: what the recursive calls return is dropped. */
  method GetNode(t: C0Node?, key: string) returns (r: C0Node?)
    requires Ok(t)
    ensures r == if t != null && StrCmp(key, t.key) == 0 then t else null
    ensures (r != null) == Get(TreeOf(t), key).Some?
    decreases TreeOf(t)
  {
    if t == null {
      return null;
    }
    assert Open(t);
    if StrCmp(key, t.key) == 0 {
      return t;
    } else if StrCmp(key, t.key) < 0 {
      var dropped := GetNode(t.left, key);
    } else {
      var dropped := GetNode(t.right, key);
    }
    return null;
  }

  method C0Size(t: C0Node?) returns (n: nat)
    requires Ok(t)
    ensures n == Size(TreeOf(t))
    decreases TreeOf(t)
  {
    if t == null {
      return 0;
    }
    assert Open(t);
    var l := C0Size(t.left);
    var r := C0Size(t.right);
    n := l + 1 + r;
  }

  ghost function NodeRecord(n: C0Node): Record
    reads n
  {
    Record(n.key, n.value, n.flag)
  }

  /** Fills exactly `nodes[i..i + size)` with the nodes of `t` in increasing key order. */
  method DumpToArray(t: C0Node?, nodes: array<C0Node?>, i: nat) returns (j: nat)
    requires Ok(t) && i + Size(TreeOf(t)) <= nodes.Length
    modifies nodes
    ensures j == i + Size(TreeOf(t))
    ensures forall k :: 0 <= k < nodes.Length && !(i <= k < j) ==> nodes[k] == old(nodes[k])
    ensures forall k :: i <= k < j ==> nodes[k] != null && NodeRecord(nodes[k]) == InOrder(TreeOf(t))[k - i]
    decreases TreeOf(t)
  {
    j := i;
    if t == null {
      return;
    }
    assert Open(t);
    ghost var a, b := InOrder(TreeOf(t.left)), InOrder(TreeOf(t.right));
    ghost var s := InOrder(TreeOf(t));
    assert s == a + [NodeRecord(t)] + b;
    j := DumpToArray(t.left, nodes, j);
    nodes[j] := t;
    ghost var m := j;
    j := DumpToArray(t.right, nodes, j + 1);
    forall k | i <= k < j ensures nodes[k] != null && NodeRecord(nodes[k]) == s[k - i] {
      assert k < m ==> s[k - i] == a[k - i];
      assert k > m ==> s[k - i] == b[k - m - 1];
    }
  }
}
