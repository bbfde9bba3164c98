/**
 * Baobab's cursor combination: one 'update' event derived from several cursors.
 *
 * A combination holds an ordered list of cursors joined by 'and'/'or'. Each cursor
 * marks its flag when it updates; when the tree that the cursors belong to
 * updates, the combination folds the flags from left to right (see module Fold),
 * emits 'update' when the result is true, and clears the flags for the next round.
 * Nothing is attached to a cursor or to the tree before the combination gets its
 * first listener.
 *
 * The event emitters of the cursors, of the tree and of the combination itself are
 * not modelled as objects: the class records which of its listeners they hold.
 */
module CursorCombination {
  import opened Fold

  /** Identity of a JavaScript object (a cursor or anything else). */
  type ObjectId = nat
  /** Identity of a tree. */
  type TreeId = nat
  /** Identity of a handler registered on the combination with `on` or `once`. */
  type HandlerId = nat

  /** A JavaScript argument, as far as the combination tells arguments apart. */
  datatype Value = Undefined | Object(id: ObjectId) | Array(items: seq<Value>)

  datatype Option<T> = None | Some(value: T)

  datatype Result<T, E> = Ok(value: T) | Err(error: E)

  /** The errors the combination throws. */
  datatype Error =
    | NotEnoughArguments
    | ArgumentNotCursor
    | InvalidOperator
    | OperandNotCursor(op: Op)
    | AlreadyInCombination(op: Op)

  /** A handler on the combination's own 'update' event; `once` handlers are dropped after one call. */
  datatype Listener = Listener(handler: HandlerId, once: bool)

  /**
   * The cursor check: only objects can be cursors, and which objects are is the
   * external predicate `cursorType`.
   */
  predicate IsCursor(v: Value, cursorType: ObjectId -> bool)
  {
    v.Object? && cursorType(v.id)
  }

  predicate Distinct(s: seq<ObjectId>)
  {
    forall i, j :: 0 <= i < j < |s| ==> s[i] != s[j]
  }

  /** Flags of a fresh round: every cursor unmarked. */
  function Unset(n: nat): seq<bool>
  {
    seq(n, _ => false)
  }

  /** The operator named by the constructor's first argument. */
  function ParseOperator(s: string): Option<Op>
  {
    if s == "or" then Some(Or)
    else if s == "and" then Some(And)
    else None
  }

  /** The position of `x` in `s`, or -1 when it is absent (JavaScript's indexOf). */
  function IndexOf(s: seq<ObjectId>, x: ObjectId): (r: int)
    ensures -1 <= r < |s|
    ensures r == -1 <==> x !in s
    ensures 0 <= r ==> s[r] == x && x !in s[..r]
  {
    if s == [] then -1
    else if s[0] == x then 0
    else
      var k := IndexOf(s[1..], x);
      assert k >= 0 ==> s[1..][..k] == s[1..k + 1];
      if k == -1 then -1 else k + 1
  }

  /**
   * The outcome of appending one value with `op`: the new cursor list, or the error,
   * the cursor check coming before the duplicate check.
   */
  function AppendOne(cursors: seq<ObjectId>, op: Op, v: Value, cursorType: ObjectId -> bool)
    : (r: Result<seq<ObjectId>, Error>)
    ensures r.Ok? <==> IsCursor(v, cursorType) && v.id !in cursors
    ensures r.Ok? ==> r.value == cursors + [v.id]
    ensures r.Err? ==> r.error == if IsCursor(v, cursorType) then AlreadyInCombination(op) else OperandNotCursor(op)
  {
    if !IsCursor(v, cursorType) then Err(OperandNotCursor(op))
    else if IndexOf(cursors, v.id) != -1 then Err(AlreadyInCombination(op))
    else Ok(cursors + [v.id])
  }

  /** The outcome of appending `rest` one value after the other, stopping at the first error. */
  function AppendAll(cursors: seq<ObjectId>, op: Op, rest: seq<Value>, cursorType: ObjectId -> bool)
    : (r: Result<seq<ObjectId>, Error>)
    ensures r.Ok? ==> |r.value| == |cursors| + |rest| && r.value[..|cursors|] == cursors
    ensures r.Ok? && Distinct(cursors) ==> Distinct(r.value)
    ensures r.Err? ==> r.error in {OperandNotCursor(op), AlreadyInCombination(op)}
    decreases |rest|
  {
    if rest == [] then Ok(cursors)
    else
      match AppendOne(cursors, op, rest[0], cursorType)
      case Err(e) => Err(e)
      case Ok(next) =>
        var r := AppendAll(next, op, rest[1..], cursorType);
        assert r.Ok? ==> r.value[..|cursors|] == next[..|cursors|];
        r
  }

  /** Every value of `rest` is a cursor that is neither in `cursors` nor earlier in `rest`. */
  predicate Acceptable(cursors: seq<ObjectId>, rest: seq<Value>, cursorType: ObjectId -> bool)
  {
    forall i :: 0 <= i < |rest| ==>
      && IsCursor(rest[i], cursorType)
      && rest[i].id !in cursors
      && forall j :: 0 <= j < i ==> rest[j] != rest[i]
  }

  /** Appending a list succeeds exactly when it is acceptable, and then appends its cursors in order. */
  lemma {:induction false} AppendAllAcceptable(cursors: seq<ObjectId>, op: Op, rest: seq<Value>, cursorType: ObjectId -> bool)
    ensures AppendAll(cursors, op, rest, cursorType).Ok? <==> Acceptable(cursors, rest, cursorType)
    ensures AppendAll(cursors, op, rest, cursorType).Ok? ==>
              forall i :: 0 <= i < |rest| ==> AppendAll(cursors, op, rest, cursorType).value[|cursors| + i] == rest[i].id
    decreases |rest|
  {
    if rest != [] {
      var v := rest[0];
      if IsCursor(v, cursorType) && v.id !in cursors {
        var next := cursors + [v.id];
        AppendAllAcceptable(next, op, rest[1..], cursorType);
        if Acceptable(next, rest[1..], cursorType) {
          forall i | 0 <= i < |rest|
            ensures IsCursor(rest[i], cursorType) && rest[i].id !in cursors
            ensures forall j :: 0 <= j < i ==> rest[j] != rest[i]
          {
            if i > 0 {
              assert rest[i] == rest[1..][i - 1];
              assert forall j :: 1 <= j < i ==> rest[j] == rest[1..][j - 1];
            }
          }
        }
        if Acceptable(cursors, rest, cursorType) {
          forall i | 0 <= i < |rest[1..]|
            ensures IsCursor(rest[1..][i], cursorType) && rest[1..][i].id !in next
            ensures forall j :: 0 <= j < i ==> rest[1..][j] != rest[1..][i]
          {
            assert rest[1..][i] == rest[i + 1];
            assert forall j :: 0 <= j < i ==> rest[1..][j] == rest[j + 1];
          }
        }
      } else {
        assert !Acceptable(cursors, rest, cursorType) by {
          assert !(IsCursor(rest[0], cursorType) && rest[0].id !in cursors);
        }
      }
    }
  }

  /** Past an accepted first element, a prefix is acceptable exactly when its tail is, after that element. */
  lemma AcceptableStep(cursors: seq<ObjectId>, rest: seq<Value>, k: nat, cursorType: ObjectId -> bool)
    requires k < |rest| && IsCursor(rest[0], cursorType) && rest[0].id !in cursors
    ensures Acceptable(cursors, rest[..k + 1], cursorType) <==>
              Acceptable(cursors + [rest[0].id], rest[1..][..k], cursorType)
  {
    assert rest[..k + 1][0] == rest[0] && rest[..k + 1][1..] == rest[1..][..k];
    AppendAllAcceptable(cursors, Or, rest[..k + 1], cursorType);
    AppendAllAcceptable(cursors + [rest[0].id], Or, rest[1..][..k], cursorType);
  }

  /**
   * A refused list of appends fails at its first element that is not acceptable:
   * every element before it is, and the error says whether that element is not a
   * cursor or is a cursor already present.
   */
  lemma {:induction false} AppendAllFirstError(cursors: seq<ObjectId>, op: Op, rest: seq<Value>, cursorType: ObjectId -> bool)
    ensures AppendAll(cursors, op, rest, cursorType).Err? ==>
              exists k :: 0 <= k < |rest|
                && Acceptable(cursors, rest[..k], cursorType)
                && !Acceptable(cursors, rest[..k + 1], cursorType)
                && AppendAll(cursors, op, rest, cursorType).error ==
                     if IsCursor(rest[k], cursorType) then AlreadyInCombination(op) else OperandNotCursor(op)
    decreases |rest|
  {
    var r := AppendAll(cursors, op, rest, cursorType);
    if r.Err? {
      var v := rest[0];
      match AppendOne(cursors, op, v, cursorType)
      case Err(e) =>
        AppendAllAcceptable(cursors, op, rest[..0], cursorType);
        assert rest[..1] == [v];
        assert !Acceptable(cursors, rest[..1], cursorType) by {
          assert !(IsCursor(rest[..1][0], cursorType) && rest[..1][0].id !in cursors);
        }
        assert Acceptable(cursors, rest[..0], cursorType);
      case Ok(next) =>
        var tail := rest[1..];
        AppendAllFirstError(next, op, tail, cursorType);
        var k' :| 0 <= k' < |tail|
          && Acceptable(next, tail[..k'], cursorType)
          && !Acceptable(next, tail[..k' + 1], cursorType)
          && AppendAll(next, op, tail, cursorType).error ==
               if IsCursor(tail[k'], cursorType) then AlreadyInCombination(op) else OperandNotCursor(op);
        AcceptableStep(cursors, rest, k', cursorType);
        AcceptableStep(cursors, rest, k' + 1, cursorType);
        assert tail[k'] == rest[k' + 1];
    }
  }

  /** Appending `p + q` is appending `p`, then `q` to the result when `p` went through. */
  lemma {:induction false} AppendAllConcat(cursors: seq<ObjectId>, op: Op, p: seq<Value>, q: seq<Value>, cursorType: ObjectId -> bool)
    ensures AppendAll(cursors, op, p + q, cursorType) ==
              match AppendAll(cursors, op, p, cursorType)
              case Ok(next) => AppendAll(next, op, q, cursorType)
              case Err(e) => Err(e)
    decreases |p|
  {
    if p == [] {
      assert p + q == q;
    } else {
      assert (p + q)[0] == p[0] && (p + q)[1..] == p[1..] + q;
      match AppendOne(cursors, op, p[0], cursorType)
      case Err(e) =>
      case Ok(next) => AppendAllConcat(next, op, p[1..], q, cursorType);
    }
  }

  /** The object the constructor's cursor arguments start with: an array argument stands for its elements. */
  function FirstArgument(args: seq<Value>): Value
    requires |args| > 0
  {
    match args[0]
    case Array(items) => if items == [] then Undefined else items[0]
    case _ => args[0]
  }

  /** The cursor arguments appended after the first one. */
  function RestArguments(args: seq<Value>): seq<Value>
    requires |args| > 0
  {
    match args[0]
    case Array(items) => if items == [] then [] else items[1..]
    case _ => args[1..]
  }

  /**
   * What `new Combination(operator, args...)` yields: its operator and its cursors,
   * or the error it throws.
   */
  function CreateOutcome(operator: string, args: seq<Value>, cursorType: ObjectId -> bool)
    : (r: Result<(Op, seq<ObjectId>), Error>)
    ensures r.Ok? ==> |args| > 0 && IsCursor(FirstArgument(args), cursorType)
    ensures r.Ok? ==> |r.value.1| == 1 + |RestArguments(args)| && r.value.1[0] == FirstArgument(args).id
    ensures r.Ok? ==> Distinct(r.value.1) && ParseOperator(operator) == Some(r.value.0)
    ensures r.Ok? ==> forall i :: 0 <= i < |RestArguments(args)| ==>
              RestArguments(args)[i].Object? && r.value.1[i + 1] == RestArguments(args)[i].id
  {
    if |args| < 1 then Err(NotEnoughArguments)
    else if !IsCursor(FirstArgument(args), cursorType) then Err(ArgumentNotCursor)
    else
      match ParseOperator(operator)
      case None => Err(InvalidOperator)
      case Some(op) =>
        match AppendAll([FirstArgument(args).id], op, RestArguments(args), cursorType)
        case Err(e) => Err(e)
        case Ok(cursors) =>
          AppendAllAcceptable([FirstArgument(args).id], op, RestArguments(args), cursorType);
          Ok((op, cursors))
  }

  /**
   * Which error the constructor throws, checked in the source's order: too few
   * arguments, a first argument that is not a cursor, an unknown operator, and
   * then the first refused append among the remaining cursors.
   */
  lemma CreateErrors(operator: string, args: seq<Value>, cursorType: ObjectId -> bool)
    ensures CreateOutcome(operator, args, cursorType) == Err(NotEnoughArguments) <==> |args| == 0
    ensures CreateOutcome(operator, args, cursorType) == Err(ArgumentNotCursor) <==>
              |args| > 0 && !IsCursor(FirstArgument(args), cursorType)
    ensures CreateOutcome(operator, args, cursorType) == Err(InvalidOperator) <==>
              |args| > 0 && IsCursor(FirstArgument(args), cursorType) && operator != "or" && operator != "and"
    ensures CreateOutcome(operator, args, cursorType).Ok? <==>
              && |args| > 0 && IsCursor(FirstArgument(args), cursorType)
              && (operator == "or" || operator == "and")
              && Acceptable([FirstArgument(args).id], RestArguments(args), cursorType)
    ensures
      && CreateOutcome(operator, args, cursorType).Err?
      && |args| > 0 && IsCursor(FirstArgument(args), cursorType)
      && ParseOperator(operator).Some?
      ==>
      var first, rest, op := FirstArgument(args).id, RestArguments(args), ParseOperator(operator).value;
      exists k :: 0 <= k < |rest|
        && Acceptable([first], rest[..k], cursorType)
        && !Acceptable([first], rest[..k + 1], cursorType)
        && CreateOutcome(operator, args, cursorType).error ==
             if IsCursor(rest[k], cursorType) then AlreadyInCombination(op) else OperandNotCursor(op)
  {
    if |args| > 0 && IsCursor(FirstArgument(args), cursorType) {
      if op :| ParseOperator(operator) == Some(op) {
        AppendAllAcceptable([FirstArgument(args).id], op, RestArguments(args), cursorType);
        AppendAllFirstError([FirstArgument(args).id], op, RestArguments(args), cursorType);
      }
    }
  }

  /**
   * A combination. While it is not released, `cursors` has no duplicates,
   * `operators` joins consecutive cursors and `updates` holds one flag per cursor.
   */
  class Combination {
    var cursors: seq<ObjectId>
    var operators: seq<Op>
    var tree: Option<TreeId>
    var updates: seq<bool>
    var bound: bool
    var released: bool
    /** The cursors holding this combination's cursor listener, with multiplicity. */
    var cursorSubscriptions: multiset<ObjectId>
    /** How many times the tree holds this combination's tree listener. */
    var treeSubscriptions: nat
    /** The handlers registered on the combination's own 'update' event. */
    var listeners: seq<Listener>

    ghost predicate Valid()
      reads this
    {
      if released then
        && cursors == [] && operators == [] && updates == [] && tree == None
        && cursorSubscriptions == multiset{} && treeSubscriptions == 0
        && (!bound ==> listeners == [])
      else
        && |cursors| >= 1
        && |operators| == |cursors| - 1
        && |updates| == |cursors|
        && Distinct(cursors)
        && tree.Some?
        // lazy binding: every cursor and the tree hold exactly one listener once bound, none before
        && (bound ==> cursorSubscriptions == multiset(cursors) && treeSubscriptions == 1)
        && (!bound ==> cursorSubscriptions == multiset{} && treeSubscriptions == 0 && listeners == [])
    }

    /** The state right after the constructor's checks: one cursor, no operator, nothing attached. */
    constructor (first: ObjectId, firstTree: TreeId)
      ensures Valid() && !released && !bound
      ensures cursors == [first] && operators == [] && updates == Unset(1) && tree == Some(firstTree)
      ensures cursorSubscriptions == multiset{} && treeSubscriptions == 0 && listeners == []
    {
      cursors := [first];
      operators := [];
      tree := Some(firstTree);
      updates := Unset(1);
      bound := false;
      released := false;
      cursorSubscriptions := multiset{};
      treeSubscriptions := 0;
      listeners := [];
    }

    /**
     * Attach the listeners for one cursor. The tree listener is removed before it is
     * attached again, so the tree holds it once however many cursors are bound.
     */
    method BindCursor(c: ObjectId)
      modifies this`cursorSubscriptions, this`treeSubscriptions
      ensures cursorSubscriptions == old(cursorSubscriptions) + multiset{c}
      ensures treeSubscriptions == 1
    {
      cursorSubscriptions := cursorSubscriptions + multiset{c};
      treeSubscriptions := 0;
      treeSubscriptions := treeSubscriptions + 1;
    }

    /** Mark the cursor `c` as updated in the current round. */
    method CursorListener(c: ObjectId)
      requires Valid() && !released && c in cursors
      modifies this`updates
      ensures Valid()
      ensures forall i :: 0 <= i < |cursors| ==> updates[i] == (old(updates)[i] || cursors[i] == c)
    {
      updates := updates[IndexOf(cursors, c) := true];
    }

    /** End of a round: fold the flags, emit 'update' when the fold is true, clear the flags. */
    method TreeListener() returns (emitted: bool)
      requires Valid() && !released
      modifies this`updates, this`listeners
      ensures Valid()
      ensures emitted == Chain(old(updates), operators)
      ensures updates == Unset(|cursors|)
      ensures listeners == if emitted then Persistent(old(listeners)) else old(listeners)
    {
      var shouldFire := updates[0];
      var i := 1;
      while i < |cursors|
        invariant 1 <= i <= |cursors|
        invariant shouldFire == Chain(updates[..i], operators[..i - 1])
      {
        assert updates[..i + 1][..i] == updates[..i];
        assert operators[..i][..i - 1] == operators[..i - 1];
        shouldFire := if operators[i - 1] == Or then shouldFire || updates[i] else shouldFire && updates[i];
        i := i + 1;
      }
      assert updates[..i] == updates && operators[..i - 1] == operators;
      emitted := shouldFire;
      if shouldFire {
        listeners := Persistent(listeners);
      }
      updates := Unset(|cursors|);
    }

    /**
     * Bind every cursor on the first call; later calls change nothing, also after a
     * release, since `bound` stays set.
     */
    method LazyBind()
      requires Valid() && (!released || bound)
      modifies this`bound, this`cursorSubscriptions, this`treeSubscriptions
      ensures Valid() && bound
      ensures old(bound) ==> cursorSubscriptions == old(cursorSubscriptions) && treeSubscriptions == old(treeSubscriptions)
      ensures !released ==> cursorSubscriptions == multiset(cursors) && treeSubscriptions == 1
    {
      if bound {
        return;
      }
      bound := true;
      var i := 0;
      while i < |cursors|
        invariant 0 <= i <= |cursors|
        invariant bound
        invariant cursorSubscriptions == multiset(cursors[..i])
        invariant treeSubscriptions == if i == 0 then 0 else 1
      {
        assert cursors[..i + 1] == cursors[..i] + [cursors[i]];
        BindCursor(cursors[i]);
        i := i + 1;
      }
      assert cursors[..i] == cursors;
    }

    /**
     * `on('update', handler)`: bind lazily, then register the handler. A released
     * combination that was bound takes the handler without binding anything, provided
     * the emitter's `kill` leaves the handler store in place.
     */
    method On(handler: HandlerId)
      requires Valid() && (!released || bound)
      modifies this`bound, this`cursorSubscriptions, this`treeSubscriptions, this`listeners
      ensures Valid() && bound
      ensures old(bound) ==> cursorSubscriptions == old(cursorSubscriptions) && treeSubscriptions == old(treeSubscriptions)
      ensures !released ==> cursorSubscriptions == multiset(cursors) && treeSubscriptions == 1
      ensures listeners == old(listeners) + [Listener(handler, false)]
    {
      LazyBind();
      listeners := listeners + [Listener(handler, false)];
    }

    /**
     * `once('update', handler)`: bind lazily, then register the handler for one call. A released
     * combination that was bound takes the handler without binding anything, provided
     * the emitter's `kill` leaves the handler store in place.
     */
    method Once(handler: HandlerId)
      requires Valid() && (!released || bound)
      modifies this`bound, this`cursorSubscriptions, this`treeSubscriptions, this`listeners
      ensures Valid() && bound
      ensures old(bound) ==> cursorSubscriptions == old(cursorSubscriptions) && treeSubscriptions == old(treeSubscriptions)
      ensures !released ==> cursorSubscriptions == multiset(cursors) && treeSubscriptions == 1
      ensures listeners == old(listeners) + [Listener(handler, true)]
    {
      LazyBind();
      listeners := listeners + [Listener(handler, true)];
    }

    /**
     * `and(v)` / `or(v)`: append a cursor with `op`. A value that is not a cursor, or a
     * cursor already present, releases the whole combination and fails.
     */
    method Append(op: Op, v: Value, cursorType: ObjectId -> bool) returns (r: Result<Combination, Error>)
      requires Valid() && !released
      modifies this
      ensures Valid() && bound == old(bound)
      ensures !IsCursor(v, cursorType) ==> r == Err(OperandNotCursor(op))
      ensures IsCursor(v, cursorType) && v.id in old(cursors) ==> r == Err(AlreadyInCombination(op))
      ensures r.Err? ==> released && cursors == [] && operators == [] && updates == [] && tree == None
      ensures r.Err? ==> cursorSubscriptions == multiset{} && treeSubscriptions == 0 && listeners == []
      ensures r.Ok? ==> AppendOne(old(cursors), op, v, cursorType) == Ok(cursors)
      ensures IsCursor(v, cursorType) && v.id !in old(cursors) ==>
                && r == Ok(this) && !released
                && cursors == old(cursors) + [v.id]
                && operators == old(operators) + [op]
                && updates == old(updates) + [false]
                && tree == old(tree) && listeners == old(listeners)
                && cursorSubscriptions == (if bound then old(cursorSubscriptions) + multiset{v.id} else old(cursorSubscriptions))
                && treeSubscriptions == old(treeSubscriptions)
    {
      if !IsCursor(v, cursorType) {
        Release();
        return Err(OperandNotCursor(op));
      }
      if IndexOf(cursors, v.id) != -1 {
        Release();
        return Err(AlreadyInCombination(op));
      }
      cursors := cursors + [v.id];
      operators := operators + [op];
      updates := updates + [false];
      if bound {
        BindCursor(v.id);
      }
      return Ok(this);
    }

    /** Remove the cursor listener from every cursor of the combination. */
    method DetachCursors()
      requires Distinct(cursors) && cursorSubscriptions <= multiset(cursors)
      modifies this`cursorSubscriptions
      ensures cursorSubscriptions == multiset{}
    {
      var i := 0;
      while i < |cursors|
        invariant 0 <= i <= |cursors|
        invariant cursorSubscriptions <= multiset(cursors[i..])
      {
        var c := cursors[i];
        assert cursors[i..] == [c] + cursors[i + 1..];
        assert c !in cursors[i + 1..];
        cursorSubscriptions := cursorSubscriptions[c := 0];
        i := i + 1;
      }
      assert cursors[i..] == [];
    }

    /**
     * Detach the cursor and tree listeners, drop every reference and every handler
     * of the combination.
     */
    method Release()
      requires Valid() && !released
      modifies this
      ensures Valid() && released && bound == old(bound)
      ensures cursorSubscriptions == multiset{} && treeSubscriptions == 0 && listeners == []
    {
      DetachCursors();
      treeSubscriptions := 0;
      cursors := [];
      operators := [];
      tree := None;
      updates := [];
      released := true;
      listeners := [];
    }

    /**
     * The cursor `c` emits 'update': the cursor listener runs when `c` holds it,
     * which is when the combination is bound, not released, and `c` is one of its
     * cursors.
     */
    method CursorUpdate(c: ObjectId)
      requires Valid()
      modifies this`updates
      ensures Valid()
      ensures bound && !released && c in cursors ==>
                forall i :: 0 <= i < |cursors| ==> updates[i] == (old(updates)[i] || cursors[i] == c)
      ensures !(bound && !released && c in cursors) ==> updates == old(updates)
    {
      if c in cursorSubscriptions {
        CursorListener(c);
      }
    }

    /**
     * The tree emits 'update': the tree listener runs when the tree holds it, which
     * is when the combination is bound and not released. Afterwards no flag is set,
     * so a round in which no cursor updates does not fire.
     */
    method TreeUpdate() returns (emitted: bool)
      requires Valid()
      modifies this`updates, this`listeners
      ensures Valid()
      ensures emitted <==> bound && !released && Chain(old(updates), operators)
      ensures bound && !released ==> updates == Unset(|cursors|) && !Chain(updates, operators)
      ensures bound && !released ==> listeners == if emitted then Persistent(old(listeners)) else old(listeners)
      ensures !(bound && !released) ==> updates == old(updates) && listeners == old(listeners)
    {
      if treeSubscriptions > 0 {
        emitted := TreeListener();
        UnsetChainIsFalse(updates, operators);
      } else {
        emitted := false;
      }
    }
  }

  /** The handlers that stay registered after an emission: every one not registered with `once`. */
  function Persistent(ls: seq<Listener>): (r: seq<Listener>)
    ensures forall l :: l in r <==> l in ls && !l.once
    ensures multiset(r) <= multiset(ls)
    ensures forall l: Listener :: !l.once ==> multiset(r)[l] == multiset(ls)[l]
  {
    if ls == [] then []
    else
      assert ls == [ls[0]] + ls[1..];
      if ls[0].once then Persistent(ls[1..])
      else [ls[0]] + Persistent(ls[1..])
  }

  /**
   * `new Combination(operator, args...)`: the argument checks, the single-cursor
   * start, and the remaining cursors appended with the operator; a refused append
   * releases the new combination and makes construction fail.
   */
  method Create(operator: string, args: seq<Value>, cursorType: ObjectId -> bool, treeOf: ObjectId -> TreeId)
    returns (r: Result<Combination, Error>)
    ensures CreateOutcome(operator, args, cursorType).Err? ==> r == Err(CreateOutcome(operator, args, cursorType).error)
    ensures CreateOutcome(operator, args, cursorType).Ok? ==>
              var (op, cursors) := CreateOutcome(operator, args, cursorType).value;
              && r.Ok? && fresh(r.value) && r.value.Valid()
              && !r.value.released && !r.value.bound
              && r.value.cursors == cursors
              && r.value.operators == seq(|cursors| - 1, _ => op)
              && r.value.updates == Unset(|cursors|)
              && r.value.tree == Some(treeOf(cursors[0]))
              && r.value.cursorSubscriptions == multiset{} && r.value.treeSubscriptions == 0
              && r.value.listeners == []
  {
    if |args| < 1 {
      return Err(NotEnoughArguments);
    }
    var first, rest := FirstArgument(args), RestArguments(args);
    if !IsCursor(first, cursorType) {
      return Err(ArgumentNotCursor);
    }
    var parsed := ParseOperator(operator);
    if parsed.None? {
      return Err(InvalidOperator);
    }
    var op := parsed.value;
    var c := new Combination(first.id, treeOf(first.id));
    var i := 0;
    while i < |rest|
      invariant 0 <= i <= |rest|
      invariant fresh(c) && c.Valid() && !c.released && !c.bound
      invariant AppendAll([first.id], op, rest[..i], cursorType) == Ok(c.cursors)
      invariant c.operators == seq(|c.cursors| - 1, _ => op)
      invariant c.updates == Unset(|c.cursors|)
      invariant c.tree == Some(treeOf(first.id))
      invariant c.cursorSubscriptions == multiset{} && c.treeSubscriptions == 0 && c.listeners == []
    {
      AppendAllConcat([first.id], op, rest[..i], [rest[i]], cursorType);
      assert rest[..i + 1] == rest[..i] + [rest[i]];
      assert [rest[i]][1..] == [];
      var appended := c.Append(op, rest[i], cursorType);
      if appended.Err? {
        AppendAllConcat([first.id], op, rest[..i], rest[i..], cursorType);
        assert rest[..i] + rest[i..] == rest;
        assert rest[i..][0] == rest[i];
        return Err(appended.error);
      }
      i := i + 1;
    }
    assert rest[..i] == rest;
    return Ok(c);
  }

  /** Two cursors joined by 'or', from a caller's view: construction. */
  method ExampleCreate(a: ObjectId, b: ObjectId, cursorType: ObjectId -> bool, treeOf: ObjectId -> TreeId)
    requires a != b && cursorType(a) && cursorType(b)
  {
    var args := [Object(a), Object(b)];
    CreateErrors("or", args, cursorType);
    var created := Create("or", args, cursorType, treeOf);
    var c := created.value;
    assert c.cursors == [a, b] && c.operators == [Or] && !c.bound;
  }

  /** Before its first listener a combination ignores its cursors and the tree, then binds on `on`. */
  method ExampleLazy(c: Combination, a: ObjectId, b: ObjectId)
    requires c.Valid() && !c.released && !c.bound
    requires c.cursors == [a, b] && c.operators == [Or] && c.updates == Unset(2)
    modifies c
  {
    c.CursorUpdate(a);
    var fired := c.TreeUpdate();
    assert !fired && c.updates == Unset(2);
    c.On(0);
    assert c.cursorSubscriptions == multiset{a, b} && c.treeSubscriptions == 1;
  }

  /**
   * Rounds of a bound 'or' combination of two cursors: a round with an update
   * fires once however often the cursor updated, and the next round starts clear.
   */
  method ExampleRounds(c: Combination, a: ObjectId, b: ObjectId)
    requires c.Valid() && !c.released && c.bound
    requires c.cursors == [a, b] && c.operators == [Or] && c.updates == Unset(2)
    requires c.listeners == [Listener(0, false)]
    modifies c
  {
    c.CursorUpdate(a);
    c.CursorUpdate(a);
    var fired := c.TreeUpdate();
    assert fired && c.listeners == [Listener(0, false)];
    fired := c.TreeUpdate();
    assert !fired;
  }

  /**
   * A duplicate append tears a bound combination down: nothing stays attached,
   * and neither a cursor nor the tree makes it fire afterwards.
   */
  method ExampleTeardown(c: Combination, a: ObjectId, b: ObjectId, cursorType: ObjectId -> bool)
    requires c.Valid() && !c.released && c.bound
    requires c.cursors == [a, b] && cursorType(a)
    modifies c
  {
    var appended := c.Append(And, Object(a), cursorType);
    assert appended == Err(AlreadyInCombination(And)) && c.released;
    assert c.cursorSubscriptions == multiset{} && c.treeSubscriptions == 0 && c.listeners == [];
    c.CursorUpdate(b);
    var fired := c.TreeUpdate();
    assert !fired;
    c.On(1);
    fired := c.TreeUpdate();
    assert !fired;
  }
}
