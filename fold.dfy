/**
 * The boolean chain a cursor combination evaluates once per tree round.
 *
 * A combination of cursors c0, c1, ..., cn joined by operators op0, ..., op(n-1)
 * fires when ((u0 op0 u1) op1 u2) ... op(n-1) un is true, where ui says whether
 * cursor ci updated during the round. The chain is folded strictly from left to
 * right: 'and' does not bind tighter than 'or'.
 */
module Fold {

  /** The two operators a combination can join cursors with. */
  datatype Op = And | Or

  /** One step of the fold: the value so far joined with the next flag. */
  function Combine(op: Op, acc: bool, flag: bool): bool
  {
    match op
    case Or => acc || flag
    case And => acc && flag
  }

  /** The left-to-right fold of `ops` over `flags`, one operator between each pair of flags. */
  function Chain(flags: seq<bool>, ops: seq<Op>): bool
    requires |flags| == |ops| + 1
    decreases |ops|
  {
    if ops == [] then flags[0]
    else Combine(ops[|ops| - 1], Chain(flags[..|flags| - 1], ops[..|ops| - 1]), flags[|flags| - 1])
  }

  /**
   * Flag k decides the chain: it is set, it opens a clause (it is the first flag or
   * follows an 'or'), and no later 'and' meets an unset flag.
   */
  predicate Decides(flags: seq<bool>, ops: seq<Op>, k: nat)
    requires |flags| == |ops| + 1 && k < |flags|
  {
    && flags[k]
    && (k == 0 || ops[k - 1] == Or)
    && forall j :: k < j < |flags| ==> ops[j - 1] == Or || flags[j]
  }

  /** Dropping the last flag and operator does not change whether an earlier flag decides the rest. */
  lemma DecidesPrefix(flags: seq<bool>, ops: seq<Op>, k: nat)
    requires |flags| == |ops| + 1 && ops != [] && k < |flags| - 1
    ensures Decides(flags, ops, k) <==>
              Decides(flags[..|flags| - 1], ops[..|ops| - 1], k)
              && (ops[|ops| - 1] == Or || flags[|flags| - 1])
  {
  }

  /**
   * The chain is true exactly when some flag decides it. This characterises the fold
   * without reference to evaluation order.
   */
  lemma {:induction false} ChainDecided(flags: seq<bool>, ops: seq<Op>)
    requires |flags| == |ops| + 1
    ensures Chain(flags, ops) <==> exists k :: 0 <= k < |flags| && Decides(flags, ops, k)
  {
    if ops == [] {
      if flags[0] {
        assert Decides(flags, ops, 0);
      }
    } else {
      var n := |flags| - 1;
      var p, q := flags[..n], ops[..n - 1];
      ChainDecided(p, q);
      forall k | 0 <= k < n {
        DecidesPrefix(flags, ops, k);
      }
      if Chain(flags, ops) {
        if ops[n - 1] == Or && flags[n] {
          assert Decides(flags, ops, n);
        } else {
          var k :| 0 <= k < n && Decides(p, q, k);
          assert Decides(flags, ops, k);
        }
      } else {
        forall k | 0 <= k < |flags|
          ensures !Decides(flags, ops, k)
        {
        }
      }
    }
  }

  /** With no flag set the chain is false: a round in which no cursor updated never fires. */
  lemma {:induction false} UnsetChainIsFalse(flags: seq<bool>, ops: seq<Op>)
    requires |flags| == |ops| + 1
    requires forall i :: 0 <= i < |flags| ==> !flags[i]
    ensures !Chain(flags, ops)
  {
    ChainDecided(flags, ops);
  }

  /** A chain of 'or' only fires when any flag is set. */
  lemma {:induction false} OrChain(flags: seq<bool>, ops: seq<Op>)
    requires |flags| == |ops| + 1
    requires forall i :: 0 <= i < |ops| ==> ops[i] == Or
    ensures Chain(flags, ops) <==> exists k :: 0 <= k < |flags| && flags[k]
  {
    ChainDecided(flags, ops);
    if k :| 0 <= k < |flags| && flags[k] {
      assert Decides(flags, ops, k);
    }
  }

  /** A chain of 'and' only fires when every flag is set. */
  lemma {:induction false} AndChain(flags: seq<bool>, ops: seq<Op>)
    requires |flags| == |ops| + 1
    requires forall i :: 0 <= i < |ops| ==> ops[i] == And
    ensures Chain(flags, ops) <==> forall k :: 0 <= k < |flags| ==> flags[k]
  {
    ChainDecided(flags, ops);
    if forall k :: 0 <= k < |flags| ==> flags[k] {
      assert Decides(flags, ops, 0);
    }
  }

  /** More cursors updating in a round never stops the chain from firing. */
  lemma {:induction false} ChainMonotone(flags: seq<bool>, more: seq<bool>, ops: seq<Op>)
    requires |flags| == |more| == |ops| + 1
    requires forall i :: 0 <= i < |flags| ==> flags[i] ==> more[i]
    ensures Chain(flags, ops) ==> Chain(more, ops)
    decreases |ops|
  {
    if ops != [] {
      var n := |flags| - 1;
      ChainMonotone(flags[..n], more[..n], ops[..n - 1]);
    }
  }

  /**
   * 'and' does not bind tighter than 'or': "c0 or c1 and c2" is (c0 or c1) and c2,
   * and it differs from c0 or (c1 and c2) when only c0 updated.
   */
  lemma NoPrecedence(u0: bool, u1: bool, u2: bool)
    ensures Chain([u0, u1, u2], [Or, And]) == ((u0 || u1) && u2)
    ensures u0 && !u1 && !u2 ==> Chain([u0, u1, u2], [Or, And]) != (u0 || (u1 && u2))
  {
  }
}
