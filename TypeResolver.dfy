/** The type resolver of ViewFactory (isInstanceOf): is a class on the superclass chain
    that starts at an instance's own class?

    The chain is followed by id through the class table; an id that names no class ends
    it. Nothing guards against a chain that loops: there the walk of the code never
    returns, which the model reports as `Diverges`.
 */
module TypeResolver {
  import opened HeapDump

  type ClassTable = map<Id, ClassDefinition>

  /** One step up the chain; an id that names no class stays where it is. */
  function Step(classes: ClassTable, id: Id): Id
  {
    if id in classes then classes[id].superClassObjectId else id
  }

  /** The id reached from `start` after `k` steps up the chain. */
  function Ancestor(classes: ClassTable, start: Id, k: nat): Id
  {
    if k == 0 then start else Step(classes, Ancestor(classes, start, k - 1))
  }

  /** The walk of isInstanceOf from class `cur`, with `fuel` more steps allowed. */
  function Walk(classes: ClassTable, cur: Id, of: Id, fuel: nat): Result<bool>
    decreases fuel
  {
    if cur !in classes then Ok(false)
    else if cur == of then Ok(true)
    else if fuel == 0 then Err(Diverges)
    else Walk(classes, classes[cur].superClassObjectId, of, fuel - 1)
  }

  /** What isInstanceOf answers for an instance of class `classId`. A chain that visits
      more classes than the table holds has looped, so |classes| steps settle it. */
  function InstanceOf(classes: ClassTable, classId: Id, of: Id): Result<bool>
  {
    Walk(classes, classId, of, |classes|)
  }

  //---------------------------------------------------------------------------------------
  // The meaning of InstanceOf

  /** The first `k` + 1 ids of the chain from `start` all name classes. */
  ghost predicate ResolvedUpTo(classes: ClassTable, start: Id, k: nat)
  {
    forall j :: 0 <= j <= k ==> Ancestor(classes, start, j) in classes
  }

  /** `of` lies on the chain from `start`, inclusive. */
  ghost predicate OnChain(classes: ClassTable, start: Id, of: Id)
  {
    exists k: nat :: ResolvedUpTo(classes, start, k) && Ancestor(classes, start, k) == of
  }

  /** The chain from `start` reaches an id that names no class before it meets `of`. */
  ghost predicate EndsBefore(classes: ClassTable, start: Id, of: Id)
  {
    exists k: nat :: Ancestor(classes, start, k) !in classes
      && forall j :: 0 <= j < k ==> Ancestor(classes, start, j) in classes && Ancestor(classes, start, j) != of
  }

  /** The chain from `start` never ends and never meets `of`: the loop of the code runs forever. */
  ghost predicate Endless(classes: ClassTable, start: Id, of: Id)
  {
    forall k: nat :: Ancestor(classes, start, k) in classes && Ancestor(classes, start, k) != of
  }

  /** isInstanceOf is true exactly when `of` is on the chain, false exactly when the chain
      ends first, and never returns exactly when the chain loops without meeting `of`. */
  lemma InstanceOfMeaning(classes: ClassTable, start: Id, of: Id)
    ensures InstanceOf(classes, start, of) == Ok(true) <==> OnChain(classes, start, of)
    ensures InstanceOf(classes, start, of) == Ok(false) <==> EndsBefore(classes, start, of)
    ensures InstanceOf(classes, start, of) == Err(Diverges) <==> Endless(classes, start, of)
  {
    WalkOutcome(classes, start, of, 0, |classes|);
    if InstanceOf(classes, start, of) == Err(Diverges) {
      LoopingChainIsEndless(classes, start, of);
    }
    OutcomesExclusive(classes, start, of);
  }

  /** Walking from the `m`-th id of the chain, every earlier id a class other than `of`. */
  lemma {:induction false} WalkOutcome(classes: ClassTable, start: Id, of: Id, m: nat, fuel: nat)
    requires forall j :: 0 <= j < m ==> Ancestor(classes, start, j) in classes && Ancestor(classes, start, j) != of
    ensures var w := Walk(classes, Ancestor(classes, start, m), of, fuel);
      w == Ok(true) || w == Ok(false) || w == Err(Diverges)
    ensures Walk(classes, Ancestor(classes, start, m), of, fuel) == Ok(true) ==> OnChain(classes, start, of)
    ensures Walk(classes, Ancestor(classes, start, m), of, fuel) == Ok(false) ==> EndsBefore(classes, start, of)
    ensures Walk(classes, Ancestor(classes, start, m), of, fuel) == Err(Diverges) ==>
      forall j :: 0 <= j <= m + fuel ==> Ancestor(classes, start, j) in classes && Ancestor(classes, start, j) != of
    decreases fuel
  {
    var cur := Ancestor(classes, start, m);
    if cur !in classes {
      assert EndsBefore(classes, start, of) by {
        assert Ancestor(classes, start, m) !in classes;
      }
    } else if cur == of {
      assert OnChain(classes, start, of) by {
        assert ResolvedUpTo(classes, start, m);
      }
    } else if fuel > 0 {
      assert Ancestor(classes, start, m + 1) == classes[cur].superClassObjectId;
      WalkOutcome(classes, start, of, m + 1, fuel - 1);
    }
  }

  /** A chain whose first |classes| + 1 ids are all classes other than `of` is endless:
      two of those ids repeat, and from there on the chain goes round the same loop. */
  lemma LoopingChainIsEndless(classes: ClassTable, start: Id, of: Id)
    requires forall j :: 0 <= j <= |classes| ==>
      Ancestor(classes, start, j) in classes && Ancestor(classes, start, j) != of
    ensures Endless(classes, start, of)
  {
    var i, j := RepeatedAncestor(classes, start);
    forall k: nat
      ensures Ancestor(classes, start, k) in classes && Ancestor(classes, start, k) != of
    {
      var k' := FoldIntoLoop(classes, start, i, j, k);
    }
  }

  /** Pigeonhole: among the first |classes| + 1 ids of a chain of classes, two are equal. */
  lemma RepeatedAncestor(classes: ClassTable, start: Id) returns (i: nat, j: nat)
    requires forall j :: 0 <= j <= |classes| ==> Ancestor(classes, start, j) in classes
    ensures i < j <= |classes| && Ancestor(classes, start, i) == Ancestor(classes, start, j)
  {
    var ids := seq(|classes| + 1, k requires 0 <= k => Ancestor(classes, start, k));
    if forall a, b :: 0 <= a < b < |ids| ==> ids[a] != ids[b] {
      DistinctWithin(ids, classes.Keys);
      assert false;
    }
    i, j :| 0 <= i < j < |ids| && ids[i] == ids[j];
  }

  /** Once the `i`-th and `j`-th ids agree, the chain repeats with period `j` - `i`. */
  lemma {:induction false} Periodic(classes: ClassTable, start: Id, i: nat, j: nat, k: nat)
    requires i < j && Ancestor(classes, start, i) == Ancestor(classes, start, j)
    requires i <= k
    ensures Ancestor(classes, start, k + (j - i)) == Ancestor(classes, start, k)
    decreases k - i
  {
    if k > i {
      Periodic(classes, start, i, j, k - 1);
      assert Ancestor(classes, start, k + (j - i)) == Step(classes, Ancestor(classes, start, k - 1 + (j - i)));
    }
  }

  /** Every id of a chain that repeats at `i` < `j` is already among its first `j`. */
  lemma {:induction false} FoldIntoLoop(classes: ClassTable, start: Id, i: nat, j: nat, k: nat) returns (k': nat)
    requires i < j && Ancestor(classes, start, i) == Ancestor(classes, start, j)
    ensures k' < j && Ancestor(classes, start, k') == Ancestor(classes, start, k)
    decreases k
  {
    if k < j {
      k' := k;
    } else {
      Periodic(classes, start, i, j, k - (j - i));
      k' := FoldIntoLoop(classes, start, i, j, k - (j - i));
    }
  }

  /** A sequence of distinct elements of `s` is no longer than `s` is large. */
  lemma {:induction false} DistinctWithin(xs: seq<Id>, s: set<Id>)
    requires forall a :: 0 <= a < |xs| ==> xs[a] in s
    requires forall a, b :: 0 <= a < b < |xs| ==> xs[a] != xs[b]
    ensures |xs| <= |s|
  {
    if xs != [] {
      forall a | 0 <= a < |xs[1..]|
        ensures xs[1..][a] in s - {xs[0]}
      {
        assert xs[1..][a] == xs[a + 1];
      }
      DistinctWithin(xs[1..], s - {xs[0]});
    }
  }

  /** At most one of the three outcomes describes a chain. */
  lemma OutcomesExclusive(classes: ClassTable, start: Id, of: Id)
    ensures !(OnChain(classes, start, of) && EndsBefore(classes, start, of))
    ensures !(OnChain(classes, start, of) && Endless(classes, start, of))
    ensures !(EndsBefore(classes, start, of) && Endless(classes, start, of))
  {
  }

  //---------------------------------------------------------------------------------------
  // isInstanceOf

  /** isInstanceOf: follows the chain from the instance's own class, comparing ids. */
  method IsInstanceOf(instance: Instance, of: Id, classes: ClassTable) returns (r: Result<bool>)
    ensures r == InstanceOf(classes, instance.classObjectId, of)
  {
    var cls := instance.classObjectId;
    var fuel: nat := |classes|;
    while cls in classes
      invariant Walk(classes, cls, of, fuel) == InstanceOf(classes, instance.classObjectId, of)
      decreases fuel
    {
      if cls == of {
        return Ok(true);
      }
      if fuel == 0 {
        return Err(Diverges);
      }
      cls := classes[cls].superClassObjectId;
      fuel := fuel - 1;
    }
    return Ok(false);
  }

  /** A class is an instance of itself. */
  lemma InstanceOfSelf(classes: ClassTable, id: Id)
    requires id in classes
    ensures InstanceOf(classes, id, id) == Ok(true)
  {
  }

  /** An instance whose own class is missing is an instance of nothing. */
  lemma InstanceOfUnknownClass(classes: ClassTable, id: Id, of: Id)
    requires id !in classes
    ensures InstanceOf(classes, id, of) == Ok(false)
  {
  }
}
