/** The AVL memtable of c0.c on values: the tree every in-place operation of Memtable computes. */
module Avl {
  import opened Records
  import opened Wrappers

  /** `ht` is the stored height, 0 for a leaf node, as in c0.c. */
  datatype Tree =
    | Null
    | Node(key: string, value: string, flag: int, left: Tree, right: Tree, ht: int)

  function Max(a: int, b: int): int { if a > b then a else b }

  /** What a subtree contributes to its parent's height: `lh` and `rh` of the source. */
  function Arm(t: Tree): int {
    if t.Null? then 0 else 1 + t.ht
  }

  function HeightOf(left: Tree, right: Tree): int {
    Max(Arm(left), Arm(right))
  }

  function BF(t: Tree): int {
    if t.Null? then 0 else Arm(t.left) - Arm(t.right)
  }

  function Rebuilt(t: Tree, left: Tree, right: Tree): Tree
    requires t.Node?
  {
    t.(left := left, right := right, ht := HeightOf(left, right))
  }

  /** The rotations dereference their pivot; `PivotsExist` shows it is always there. */
  function RotateRight(x: Tree): Tree {
    if x.Null? || x.left.Null? then x
    else Rebuilt(x.left, x.left.left, Rebuilt(x, x.left.right, x.right))
  }

  function RotateLeft(x: Tree): Tree {
    if x.Null? || x.right.Null? then x
    else Rebuilt(x.right, Rebuilt(x, x.left, x.right.left), x.right.right)
  }

  function RR(t: Tree): Tree { RotateLeft(t) }

  function LL(t: Tree): Tree { RotateRight(t) }

  function LR(t: Tree): Tree {
    if t.Null? then t else RotateRight(t.(left := RotateLeft(t.left)))
  }

  function RL(t: Tree): Tree {
    if t.Null? then t else RotateLeft(t.(right := RotateRight(t.right)))
  }

  function WithHeight(t: Tree): Tree {
    if t.Null? then t else t.(ht := HeightOf(t.left, t.right))
  }

  /** Rebalancing after an insertion: the case is chosen by comparing keys. */
  function FixRightInsert(t: Tree, key: string): Tree
    requires t.Node?
  {
    if BF(t) == -2 && t.right.Node? then if StrCmp(key, t.right.key) > 0 then RR(t) else RL(t) else t
  }

  function FixLeftInsert(t: Tree, key: string): Tree
    requires t.Node?
  {
    if BF(t) == 2 && t.left.Node? then if StrCmp(key, t.left.key) <= 0 then LL(t) else LR(t) else t
  }

  function Insert(t: Tree, key: string, value: string, flag: int): (r: Tree)
    ensures r.Node?
  {
    if t.Null? then Node(key, value, flag, Null, Null, 0)
    else if StrCmp(key, t.key) > 0 then
      WithHeight(FixRightInsert(t.(right := Insert(t.right, key, value, flag)), key))
    else if StrCmp(key, t.key) < 0 then
      WithHeight(FixLeftInsert(t.(left := Insert(t.left, key, value, flag)), key))
    else WithHeight(t)
  }

  /** Rebalancing after a deletion: the case is chosen by the balance of the heavy child. */
  function FixLeftHeavy(t: Tree): Tree
    requires t.Node?
  {
    if BF(t) == 2 then if BF(t.left) >= 0 then LL(t) else LR(t) else t
  }

  function FixRightHeavy(t: Tree): Tree
    requires t.Node?
  {
    if BF(t) == -2 then if BF(t.right) <= 0 then RR(t) else RL(t) else t
  }

  /** The leftmost node. */
  function Leftmost(t: Tree): (r: Tree)
    requires t.Node?
    ensures r.Node?
  {
    if t.left.Null? then t else Leftmost(t.left)
  }

  function Size(t: Tree): nat {
    if t.Null? then 0 else Size(t.left) + 1 + Size(t.right)
  }

  /** Deletion.  A node with a right child takes over the key and the value of its successor, but
      keeps its own flag. */
  function Delete(t: Tree, key: string): Tree {
    if t.Null? then Null
    else if StrCmp(key, t.key) > 0 then
      WithHeight(FixLeftHeavy(t.(right := Delete(t.right, key))))
    else if StrCmp(key, t.key) < 0 then
      WithHeight(FixRightHeavy(t.(left := Delete(t.left, key))))
    else if t.right.Node? then
      var p := Leftmost(t.right);
      WithHeight(FixLeftHeavy(t.(key := p.key, value := p.value, right := Delete(t.right, p.key))))
    else t.left
  }

  /** `Get` as written: the results of the recursive calls are dropped. */
  function Get(t: Tree, key: string): Option<Record> {
    if t.Node? && StrCmp(key, t.key) == 0 then Some(Record(t.key, t.value, t.flag)) else None
  }

  /** `Get` as its callers expect it. */
  function Search(t: Tree, key: string): Option<Record> {
    if t.Null? then None
    else if StrCmp(key, t.key) == 0 then Some(Record(t.key, t.value, t.flag))
    else if StrCmp(key, t.key) < 0 then Search(t.left, key)
    else Search(t.right, key)
  }

  /** `Update` writes at any depth, although what it returns is dropped below the root. */
  function Update(t: Tree, key: string, value: string, flag: int): Tree {
    if t.Null? then Null
    else if StrCmp(key, t.key) == 0 then t.(value := value, flag := flag)
    else if StrCmp(key, t.key) < 0 then t.(left := Update(t.left, key, value, flag))
    else t.(right := Update(t.right, key, value, flag))
  }

  /** The records in the order `dumpToArray` visits them. */
  function InOrder(t: Tree): (s: seq<Record>)
    ensures |s| == Size(t)
  {
    if t.Null? then [] else InOrder(t.left) + [Record(t.key, t.value, t.flag)] + InOrder(t.right)
  }

  // ---------------------------------------------------------------- balance

  /** Stored heights are right and no node is out of balance by more than one. */
  ghost predicate Balanced(t: Tree) {
    t.Null? || (Balanced(t.left) && Balanced(t.right) && t.ht == HeightOf(t.left, t.right) && -1 <= BF(t) <= 1)
  }

  /** The true height, counted without looking at `ht`. */
  ghost function TrueArm(t: Tree): nat {
    if t.Null? then 0 else 1 + (if TrueArm(t.left) > TrueArm(t.right) then TrueArm(t.left) else TrueArm(t.right))
  }

  lemma {:induction false} StoredHeightIsTrue(t: Tree)
    requires Balanced(t)
    ensures Arm(t) == TrueArm(t)
  {
    if t.Node? {
      StoredHeightIsTrue(t.left);
      StoredHeightIsTrue(t.right);
    }
  }

  function Fib(n: nat): nat {
    if n < 2 then n else Fib(n - 2) + Fib(n - 1)
  }

  /** A balanced tree of stored height h has at least Fib(h + 3) - 1 nodes. */
  lemma {:induction false} SizeBound(t: Tree)
    requires Balanced(t)
    ensures Arm(t) >= 0
    ensures Size(t) + 1 >= Fib(Arm(t) + 2)
  {
    if t.Node? {
      SizeBound(t.left);
      SizeBound(t.right);
      var low := if BF(t) >= 0 then Arm(t.right) else Arm(t.left);
      FibMonotone(Arm(t) - 1 + 1, low + 2);
    }
  }

  lemma {:induction false} FibMonotone(m: nat, n: nat)
    requires m <= n
    ensures Fib(m) <= Fib(n)
    decreases n - m
  {
    if m < n {
      FibMonotone(m, n - 1);
    }
  }

  /** Fib grows at least like the powers of two at half speed, so the depth is logarithmic. */
  lemma {:induction false} DepthIsLogarithmic(t: Tree)
    requires Balanced(t)
    ensures Arm(t) >= 0 && Size(t) + 1 >= Pow2((Arm(t) + 1) / 2)
  {
    SizeBound(t);
    FibIsExponential(Arm(t) + 2);
  }

  function Pow2(n: nat): nat { if n == 0 then 1 else 2 * Pow2(n - 1) }

  lemma {:induction false} FibIsExponential(n: nat)
    requires n >= 2
    ensures Fib(n) >= Pow2((n - 1) / 2)
  {
    if n >= 4 {
      FibIsExponential(n - 2);
      FibMonotone(n - 2, n - 1);
      assert (n - 1) / 2 == (n - 3) / 2 + 1;
    } else {
      assert Fib(2) == 1 && Fib(3) == 2 && Pow2(0) == 1 && Pow2(1) == 2;
    }
  }

  /** The relation between a subtree and the result of inserting into it: balanced, and grown by at most
      one level.  When it does grow, the side of the new key is the heavy one, which is what the choice
      by key comparison needs. */
  ghost predicate Grown(t: Tree, r: Tree, key: string) {
    && Balanced(t) && Balanced(r) && r.Node?
    && Arm(t) <= Arm(r) <= Arm(t) + 1
    && (t.Node? && Arm(r) == Arm(t) + 1 ==>
          && r.key == t.key
          && (StrCmp(key, t.key) > 0 ==> BF(r) == -1)
          && (StrCmp(key, t.key) < 0 ==> BF(r) == 1)
          && StrCmp(key, t.key) != 0)
  }

  /** Insertion keeps the balance and grows the tree by at most one level.  When it does grow, the
      side of the new key is the heavy one, which is what the choice by key comparison needs. */
  lemma {:induction false} InsertKeepsBalance(t: Tree, key: string, value: string, flag: int)
    requires Balanced(t)
    ensures Grown(t, Insert(t, key, value, flag), key)
  {
    if t.Node? {
      ArmNonNegative(t.left);
      ArmNonNegative(t.right);
      if StrCmp(key, t.key) > 0 {
        InsertKeepsBalance(t.right, key, value, flag);
        FixRightInsertBalance(t, key, value, flag);
      } else if StrCmp(key, t.key) < 0 {
        InsertKeepsBalance(t.left, key, value, flag);
        FixLeftInsertBalance(t, key, value, flag);
      }
    }
  }

  lemma ArmNonNegative(t: Tree)
    requires Balanced(t)
    ensures Arm(t) >= 0 && (t.Node? ==> Arm(t) >= 1)
  {
    StoredHeightIsTrue(t);
  }

  /** A right-heavy node whose right child leans left: the double rotation restores the balance and
      takes back the extra level. */
  lemma DoubleLeft(u: Tree)
    requires u.Node? && Balanced(u.left) && Balanced(u.right) && BF(u) == -2 && BF(u.right) == 1
    ensures Balanced(RL(u)) && Arm(RL(u)) == Arm(u.right) && WithHeight(RL(u)) == RL(u)
  {
    var y := u.right;
    ArmNonNegative(u.left);
    ArmNonNegative(y.right);
    var z := y.left;
    assert z.Node? && Balanced(z);
    ArmNonNegative(z.left);
    ArmNonNegative(z.right);
    var x', y' := Rebuilt(u, u.left, z.left), Rebuilt(y, z.right, y.right);
    assert RL(u) == Rebuilt(z, x', y');
    assert Balanced(x') && Balanced(y');
  }

  lemma DoubleRight(u: Tree)
    requires u.Node? && Balanced(u.left) && Balanced(u.right) && BF(u) == 2 && BF(u.left) == -1
    ensures Balanced(LR(u)) && Arm(LR(u)) == Arm(u.left) && WithHeight(LR(u)) == LR(u)
  {
    var y := u.left;
    ArmNonNegative(u.right);
    ArmNonNegative(y.left);
    var z := y.right;
    assert z.Node? && Balanced(z);
    ArmNonNegative(z.left);
    ArmNonNegative(z.right);
    var x', y' := Rebuilt(u, z.right, u.right), Rebuilt(y, y.left, z.left);
    assert LR(u) == Rebuilt(z, y', x');
    assert Balanced(x') && Balanced(y');
  }

  /** A single rotation towards a child that does not lean the other way; it takes back a level
      unless the child was even. */
  lemma SingleLeft(u: Tree)
    requires u.Node? && Balanced(u.left) && Balanced(u.right) && BF(u) == -2 && BF(u.right) <= 0
    ensures Balanced(RR(u)) && WithHeight(RR(u)) == RR(u)
    ensures Arm(RR(u)) == if BF(u.right) == 0 then Arm(u.right) + 1 else Arm(u.right)
  {
    var y := u.right;
    ArmNonNegative(u.left);
    ArmNonNegative(y.left);
    var x' := Rebuilt(u, u.left, y.left);
    assert RR(u) == Rebuilt(y, x', y.right);
    assert Balanced(x');
  }

  lemma SingleRight(u: Tree)
    requires u.Node? && Balanced(u.left) && Balanced(u.right) && BF(u) == 2 && BF(u.left) >= 0
    ensures Balanced(LL(u)) && WithHeight(LL(u)) == LL(u)
    ensures Arm(LL(u)) == if BF(u.left) == 0 then Arm(u.left) + 1 else Arm(u.left)
  {
    var y := u.left;
    ArmNonNegative(u.right);
    ArmNonNegative(y.right);
    var x' := Rebuilt(u, y.right, u.right);
    assert LL(u) == Rebuilt(y, y.left, x');
    assert Balanced(x');
  }

  lemma FixRightInsertBalance(t: Tree, key: string, value: string, flag: int)
    requires Balanced(t) && t.Node? && StrCmp(key, t.key) > 0
    requires Grown(t.right, Insert(t.right, key, value, flag), key)
    ensures Grown(t, Insert(t, key, value, flag), key)
  {
    var u := t.(right := Insert(t.right, key, value, flag));
    ArmNonNegative(t.left);
    ArmNonNegative(t.right);
    if BF(u) == -2 {
      var y := u.right;
      ArmNonNegative(y.left);
      ArmNonNegative(y.right);
      if StrCmp(key, y.key) <= 0 {
        DoubleLeft(u);
      } else {
        SingleLeft(u);
      }
    }
  }

  lemma FixLeftInsertBalance(t: Tree, key: string, value: string, flag: int)
    requires Balanced(t) && t.Node? && StrCmp(key, t.key) < 0
    requires Grown(t.left, Insert(t.left, key, value, flag), key)
    ensures Grown(t, Insert(t, key, value, flag), key)
  {
    var u := t.(left := Insert(t.left, key, value, flag));
    ArmNonNegative(t.left);
    ArmNonNegative(t.right);
    if BF(u) == 2 {
      var y := u.left;
      ArmNonNegative(y.left);
      ArmNonNegative(y.right);
      if StrCmp(key, y.key) > 0 {
        DoubleRight(u);
      } else {
        SingleRight(u);
      }
    }
  }

  /** Deletion keeps the balance and shrinks the tree by at most one level. */
  lemma {:induction false} DeleteKeepsBalance(t: Tree, key: string)
    requires Balanced(t)
    ensures Balanced(Delete(t, key))
    ensures Arm(t) - 1 <= Arm(Delete(t, key)) <= Arm(t)
    decreases t
  {
    if t.Node? {
      ArmNonNegative(t.left);
      ArmNonNegative(t.right);
      if StrCmp(key, t.key) > 0 {
        DeleteKeepsBalance(t.right, key);
        FixLeftHeavyBalance(t.(right := Delete(t.right, key)), Arm(t));
      } else if StrCmp(key, t.key) < 0 {
        DeleteKeepsBalance(t.left, key);
        FixRightHeavyBalance(t.(left := Delete(t.left, key)), Arm(t));
      } else if t.right.Node? {
        var p := Leftmost(t.right);
        DeleteKeepsBalance(t.right, p.key);
        FixLeftHeavyBalance(t.(key := p.key, value := p.value, right := Delete(t.right, p.key)), Arm(t));
      }
    }
  }

  lemma FixLeftHeavyBalance(u: Tree, arm: int)
    requires u.Node? && Balanced(u.left) && Balanced(u.right)
    requires (0 <= BF(u) <= 2 && arm == 1 + Max(Arm(u.left), Arm(u.right) + 1)) || (-1 <= BF(u) <= 1 && arm == 1 + HeightOf(u.left, u.right))
    ensures Balanced(WithHeight(FixLeftHeavy(u)))
    ensures arm - 1 <= Arm(WithHeight(FixLeftHeavy(u))) <= arm
  {
    ArmNonNegative(u.left);
    ArmNonNegative(u.right);
    if BF(u) == 2 {
      ArmNonNegative(u.left.left);
      ArmNonNegative(u.left.right);
      if BF(u.left) < 0 {
        DoubleRight(u);
      } else {
        SingleRight(u);
      }
    }
  }

  lemma FixRightHeavyBalance(u: Tree, arm: int)
    requires u.Node? && Balanced(u.left) && Balanced(u.right)
    requires (-2 <= BF(u) <= 0 && arm == 1 + Max(Arm(u.left) + 1, Arm(u.right))) || (-1 <= BF(u) <= 1 && arm == 1 + HeightOf(u.left, u.right))
    ensures Balanced(WithHeight(FixRightHeavy(u)))
    ensures arm - 1 <= Arm(WithHeight(FixRightHeavy(u))) <= arm
  {
    ArmNonNegative(u.left);
    ArmNonNegative(u.right);
    if BF(u) == -2 {
      ArmNonNegative(u.right.left);
      ArmNonNegative(u.right.right);
      if BF(u.right) > 0 {
        DoubleLeft(u);
      } else {
        SingleLeft(u);
      }
    }
  }
}
