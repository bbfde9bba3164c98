# Baobab cursor combination, modelled in Dafny

Baobab's `Combination` derives one `update` event from several cursors. A
combination holds an ordered list of cursors and, between each pair of
neighbours, an operator `and` or `or`. When a cursor updates, the combination
marks that cursor's flag. When the tree the cursors belong to updates, it does
three things:

- it folds the flags strictly from left to right: `((u0 op0 u1) op1 u2) ...`;
- it emits its own `update` when the result is true;
- it clears the flags for the next round.

Nothing is attached to a cursor or to the tree until the combination gets its
first listener through `on` or `once`. `and(c)` and `or(c)` append a cursor. A
bad append releases the whole combination before it throws.

Files:

- `fold.dfy`, module `Fold`: the operators, the left-to-right fold `Chain` and
  what is proved about it. The main result is an order-free characterisation
  of when the chain is true.
- `combination.dfy`, module `CursorCombination`: the JavaScript argument values
  and the errors thrown. It also holds the pure outcomes of appending and of
  construction (`AppendOne`, `AppendAll`, `CreateOutcome`), the class
  `Combination` with the source's fields and methods, and `Create`, which is
  the JavaScript constructor with its checks.

How the model represents the source:

- The event emitters of the cursors, of the tree and of the combination are
  other objects; their internals are not part of this model. The class records
  what they hold of the combination:
  - `cursorSubscriptions`: the cursors holding the cursor listener, with
    multiplicity;
  - `treeSubscriptions`: how many times the tree holds the tree listener;
  - `listeners`: the handlers registered with `on` and `once`.
- The emitter's `on` adds one attachment and `off` removes every attachment of
  the handler. With those rules, `BindCursor` leaves the tree listener attached
  exactly once.
- `CursorUpdate` and `TreeUpdate` are the events coming from outside. They run
  the listeners only where those listeners are attached.
- `type.Cursor` is the input predicate `cursorType` on object identities. Arrays
  and `undefined` are never cursors. A cursor's tree (`first.tree`) is the
  input function `treeOf`.
- The flag array's holes (`new Array(n)`, `updates.length++`) are `false`. In
  the fold, `undefined` and `false` are both falsy, so the result's truth value
  is the same.
- `released` together with the emptied sequences and `tree == None` stands for
  the fields set to `null` by `release`.
- `ObjectId`, `TreeId` and `HandlerId` are opaque identities.

Where the intended behaviour and the code disagree, the model follows the code:

- A second `release` is meant to be harmless. In the code it calls
  `forEach` on the `null` left by the first one, so it throws (`release`,
  src/combination.js:145). The same happens for `and`/`or` after a release: a
  cursor argument reaches `indexOf` on `null` (line 123), and a non-cursor
  argument calls `release` (line 119), which throws at line 145. So `Release`
  and `Append` require `!released`.
- Events from outside are different: the listeners are detached, so
  `CursorUpdate` and `TreeUpdate` after a release do nothing.
  `ExampleTeardown` shows this.

## Model

| member | source | states |
|---|---|---|
| `Fold.ChainDecided` | src/combination.js:60-72 | the left-to-right fold is true exactly when some set flag opens a clause (it is first or follows an `or`) and no later `and` meets an unset flag |
| `Fold.UnsetChainIsFalse` | src/combination.js:60-72 | with every flag unset (every flag missing, or a fresh round) the chain is false |
| `Fold.OrChain` | src/combination.js:65-69 | a chain of `or` only is true exactly when some flag is set |
| `Fold.AndChain` | src/combination.js:65-69 | a chain of `and` only is true exactly when every flag is set |
| `Fold.ChainMonotone` | src/combination.js:65-69 | setting more flags never turns a true chain false |
| `Fold.NoPrecedence` | src/combination.js:65-69 | `and` does not bind tighter than `or`: for all flags, `c0 or c1 and c2` is `(c0 or c1) and c2`, which differs from `c0 or (c1 and c2)` when only `c0` updated |
| `CursorCombination.IndexOf` | src/combination.js:57 | `indexOf` gives -1 exactly when the cursor is absent; otherwise it gives the first position holding it |
| `CursorCombination.AppendOne` | src/combination.js:117-130 | an append succeeds exactly for a cursor not yet present, and then adds it at the end; otherwise the error names the operator, and the cursor check comes first |
| `CursorCombination.AppendAll` | src/combination.js:103-106 | appending a list one by one keeps the earlier cursors as a prefix, adds one cursor per element and keeps the list free of duplicates; errors are append errors |
| `CursorCombination.AppendAllFirstError` | src/combination.js:104-126 | a refused list fails at its first unacceptable element: every element before it is acceptable, and the error is "already in combination" when that element is a cursor and "should be a cursor" otherwise |
| `CursorCombination.AppendAllAcceptable` | src/combination.js:118-126 | appending a list succeeds exactly when every element is a cursor absent from the combination and from the earlier elements; the cursors are then added in order |
| `CursorCombination.AppendAllConcat` | src/combination.js:104-106 | appending `p + q` is appending `p`, then `q`, and stops at the first error |
| `CursorCombination.CreateOutcome` | src/combination.js:27-48 | a successful construction starts with the first argument (or the first element of an array argument), holds the remaining arguments' cursors after it, in order, has no duplicates and has a valid operator |
| `CursorCombination.CreateErrors` | src/combination.js:27-42 | construction fails with "not enough arguments" exactly when no cursor argument is given; with "should be a cursor" exactly when the first one is not a cursor; with "invalid operator" exactly when the first is a cursor and the operator is neither `or` nor `and`; it succeeds exactly when the remaining cursors are acceptable; otherwise the error comes from the first unacceptable remaining cursor (array elements included) and says which check refused it |
| `CursorCombination.Create` | src/combination.js:23-107 | the constructor returns the error `CreateOutcome` predicts, or a fresh unbound combination whose cursors are those of `CreateOutcome`, joined by the given operator, with unset flags and nothing attached |
| `CursorCombination.Combination.constructor` | src/combination.js:44-53 | a new combination holds the first cursor alone, no operator, one unset flag and the first cursor's tree; it is unbound, with nothing attached |
| `CursorCombination.Combination.BindCursor` | src/combination.js:14-18 | binding a cursor attaches one more cursor listener and leaves the tree listener attached exactly once |
| `CursorCombination.Combination.CursorListener` | src/combination.js:56-58 | the flag of the updating cursor becomes true, every other flag keeps its value, and firing again changes nothing |
| `CursorCombination.Combination.TreeListener` | src/combination.js:60-76 | the loop emits exactly when the left-to-right fold of the round's flags is true; afterwards every flag is unset and there is one flag per cursor; an emission drops the `once` handlers |
| `CursorCombination.Combination.LazyBind` | src/combination.js:84-91 | the first call sets `bound` and attaches the listener to every current cursor and once to the tree; later calls change nothing, also after a release |
| `CursorCombination.Combination.On` | src/combination.js:93-96 | `on` binds lazily, then registers the handler; on a released combination that was bound it only registers the handler, assuming `kill` leaves `on` usable (see "## Left out") |
| `CursorCombination.Combination.Once` | src/combination.js:98-101 | `once` binds lazily, then registers the handler for one call; on a released combination that was bound it only registers the handler, assuming `kill` leaves `once` usable (see "## Left out") |
| `CursorCombination.Combination.Append` | src/combination.js:114-136 | `and`/`or` with a non-cursor, or with a cursor already present, releases the combination and fails (the cursor check first). Otherwise it appends the cursor and the operator, adds one unset flag, keeps every earlier entry, binds the new cursor when already bound, and returns the same combination |
| `CursorCombination.Combination.DetachCursors` | src/combination.js:145-147 | removing the cursor listener from each cursor in turn leaves no cursor holding it |
| `CursorCombination.Combination.Release` | src/combination.js:142-160 | release detaches every cursor listener and the tree listener, empties cursors, operators, flags and tree, and drops the combination's own handlers |
| `CursorCombination.Combination.CursorUpdate` | src/combination.js:15 | a cursor update marks that cursor's flag only when the combination is bound, not released and holds the cursor; otherwise the flags do not change |
| `CursorCombination.Combination.TreeUpdate` | src/combination.js:16-17 | a tree update emits exactly when the combination is bound, not released and its fold is true; it leaves the flags clear, so a following round without cursor updates does not fire; an emission drops the `once` handlers and keeps the others, and without an emission every handler stays; unbound or released, it changes nothing |
| `CursorCombination.Persistent` | src/combination.js:72 | after an emission exactly the handlers not registered with `once` remain, each as many times as it was registered, and no handler is added |

The class invariant `Combination.Valid` holds before and after every public
method. `BindCursor` and `DetachCursors` are internal steps of `LazyBind`,
`Append` and `Release`, taken while the invariant is temporarily broken.
While the combination is not released, it says:

- there is at least one cursor;
- there is one operator fewer than cursors;
- there is one flag per cursor;
- the cursors have no duplicates.

It also states the lazy-binding invariant:

- unbound: nothing is attached and no handler is registered;
- bound: every cursor holds the cursor listener exactly once and the tree holds
  the tree listener exactly once.

Once released, everything is empty and nothing is attached. A released
combination that was bound may hold handlers registered after the release
(see `On` under "## Left out"); none of them can fire.

## Left out

- The emitter library's own `on`, `off`, `emit` and `kill`. They are abstracted
  to the subscription records above. `emit` is the returned `emitted` flag
  together with the removal of `once` handlers. Event names other than
  `update`, handler arguments and `off` called by users of the combination are
  not modelled.
- `type.Cursor`, `helpers.arrayOf` and `helpers.inherits` are not part of this
  model. The cursor check is an input predicate, and `arguments` is the sequence
  of arguments after the operator.
- The replacement of `this.on`/`this.once` at construction and JavaScript's
  `this` binding in the cursor listener. They become the methods `On`, `Once`
  and `CursorUpdate(c)`.
- Use after release where the source throws. `Append` and `Release` require a
  combination that is not released; in the excluded cases the source
  dereferences `null` and throws a `TypeError`.
- On, Once and LazyBind: their released case rests on an assumption about the
  emitter's `kill` (src/combination.js:159), which is not part of this model.
  The model assumes `kill` leaves the instance's own `on`/`once` (lines 93-101)
  and the handler store usable. Under that assumption, `release` keeps `bound`,
  so a bound combination's `lazyBind` returns at once and the handler is
  registered (and can never fire), while an unbound one reaches
  `self.cursors.forEach` on `null` (line 88). The three methods therefore
  require `!released || bound`. If `kill` instead turns `on`/`once` into
  no-ops, both calls register nothing; the model does not capture that
  reading.
- That all cursors share one tree. The tree is taken from the first cursor only
  and is never checked.
- The order in which cursor and tree callbacks are delivered. It belongs to the
  tree and cursor implementation.
- Handlers that act on the combination while it is emitting
  (src/combination.js:72). The model treats an emission as one atomic step, so
  it does not capture these re-entrant cases:
  - a handler that updates a cursor: the flag it sets is cleared right after the
    emission (line 75);
  - a handler that calls `release`: `cursors` becomes `null` (line 153), and
    line 75 then reads `self.cursors.length` and throws a `TypeError` out of the
    tree listener;
  - a handler that calls `and`/`or`: the cursor is appended mid-round, and
    line 75 then clears the flags for the new length.
- Sparse array arguments. `rest.forEach` (line 104) skips holes, so
  `new Combination('or', [a, , b])` builds `[a, b]`. `Value` cannot represent a
  hole, so this case is not modelled.
- The error messages' text. Errors are the constructors of `Error`, and the
  append errors carry the operator.
