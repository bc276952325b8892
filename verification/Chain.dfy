/** Blocks identified by their whole ancestry, so that equal hashes mean equal chains. */
module Chain {
  datatype Block = Genesis(tag: nat) | Child(parent: Block, tag: nat)

  function Height(b: Block): nat {
    match b
    case Genesis(_) => 0
    case Child(p, _) => Height(p) + 1
  }

  /** The block at height `n` of the chain that ends in `tip`. */
  function At(tip: Block, n: nat): (b: Block)
    requires n <= Height(tip)
    ensures Height(b) == n
  {
    if Height(tip) == n then tip else At(tip.parent, n)
  }

  lemma {:induction false} ParentAt(tip: Block, n: nat)
    requires 0 < n <= Height(tip)
    ensures At(tip, n).Child? && At(tip, n).parent == At(tip, n - 1)
  {
    if n < Height(tip) {
      ParentAt(tip.parent, n);
    } else {
      assert At(tip.parent, n - 1) == tip.parent;
    }
  }

  /** Agreeing at one height means agreeing at every lower height. */
  lemma {:induction false} AgreeBelow(a: Block, b: Block, n: nat, m: nat)
    requires m <= n <= Height(a) && n <= Height(b) && At(a, n) == At(b, n)
    ensures At(a, m) == At(b, m)
  {
    if m < n {
      ParentAt(a, n);
      ParentAt(b, n);
      AgreeBelow(a, b, n - 1, m);
    }
  }
}
