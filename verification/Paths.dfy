/** Paths in a graph given by its successors. */
module Paths {
  import opened Mapping

  /** A path at least one step long. */
  ghost predicate Path<T>(succ: T -> seq<T>, p: seq<T>) {
    |p| >= 2 && forall i {:trigger StepAt(succ, p, i)} | 0 < i < |p| :: StepAt(succ, p, i)
  }

  ghost predicate StepAt<T>(succ: T -> seq<T>, p: seq<T>, i: nat)
    requires 0 < i < |p|
  {
    p[i] in succ(p[i - 1])
  }

  ghost predicate Leads<T(!new)>(succ: T -> seq<T>, a: T, b: T) {
    exists p :: Path(succ, p) && p[0] == a && p[|p| - 1] == b
  }

  lemma LeadsOneStep<T(!new)>(succ: T -> seq<T>, a: T, b: T)
    requires b in succ(a)
    ensures Leads(succ, a, b)
  {
    assert StepAt(succ, [a, b], 1);
    assert Path(succ, [a, b]);
  }

  lemma LeadsOn<T(!new)>(succ: T -> seq<T>, a: T, b: T, c: T)
    requires Leads(succ, a, b) && c in succ(b)
    ensures Leads(succ, a, c)
  {
    var p :| Path(succ, p) && p[0] == a && p[|p| - 1] == b;
    var q := p + [c];
    forall i | 0 < i < |q| ensures StepAt(succ, q, i) {
      assert i < |p| ==> StepAt(succ, p, i);
    }
    assert Path(succ, q) && q[0] == a && q[|q| - 1] == c;
  }

  lemma PathPrefix<T>(succ: T -> seq<T>, p: seq<T>, n: nat)
    requires Path(succ, p) && 2 <= n <= |p|
    ensures Path(succ, p[..n])
  {
    forall i | 0 < i < n ensures StepAt(succ, p[..n], i) {
      assert StepAt(succ, p, i);
    }
  }

  /** A function that respects single steps carries paths to paths. */
  lemma CarryPath<A(!new), B(!new)>(succ: A -> seq<A>, image: B -> seq<B>, f: A -> B, p: seq<A>)
    requires Path(succ, p)
    requires forall x, y | x in p && y in p && y in succ(x) :: f(y) in image(f(x))
    ensures Leads(image, f(p[0]), f(p[|p| - 1]))
  {
    var q := Map(f, p);
    forall i | 0 < i < |q| ensures StepAt(image, q, i) {
      assert StepAt(succ, p, i);
    }
    assert Path(image, q);
  }
}
