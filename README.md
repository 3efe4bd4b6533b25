# Deferred dispatch until commit: a Dafny model of `TransactionHandler`

`TransactionHandler` (namespace `Jitendra\Lqstuff`) defers the dispatch of commands,
events and notifications until the database transaction they were issued in has
committed, and discards them when it rolls back. It keeps two pieces of state:

- a stack of the connection names of the open transactions, most recently begun first;
- a map from nesting depth to the callbacks deferred at that depth, in submission order.

The ORM reports each transaction's begin, commit and rollback. `handler` either runs a
callback at once or appends it to the bucket of the current depth. A commit pops the
stack. It then merges the committed bucket into an enclosing transaction on the same
connection, or runs its callbacks. A rollback drops the bucket and pops the stack.

The model has four modules:

- `Lifecycle` (`lifecycle.dfy`) describes the handler's state as a value: `State`, with
  the whitelist, the stack, the pending map and the trace `ran` of callbacks invoked so
  far. It has one function per operation, and lemmas that restate commit in terms of
  the stack it finds.
- `Handler` (`handler.dfy`) is the class `TransactionHandler`. Its methods update the
  fields `transactions`, `pending` and `ran` in place. Each method is proved to take
  `old(Model())` to the state its `Lifecycle` function gives. Commit runs its handlers
  in a loop, as the source's `foreach` does.
- `Traces` (`traces.dfy`) replays sequences of lifecycle events and submissions. It
  proves the depth accounting and states the basic scenarios as lemmas.
- `Accounting` (`accounting.dfy`) tracks where every submitted callback ends up. Under
  a corrected commit, each callback has run once, is still waiting, or was dropped by a
  rollback. It also holds the concrete runs on which the code as written breaks this.

Modelling decisions:

- A connection is its name. A callback is an opaque token `H`. Running a callback
  appends it to `ran`. What a callback returns is `invoke(callback)`, a function
  supplied to the constructor.
- The subject passed to `handler` is an `Object(className, usesTransactionAware)` or a
  `Plain(value)`. These two fields stand for `get_class` and the `class_uses_recursive`
  lookup. The whitelist is a `set<string>`.
- An absent bucket is read as the empty sequence.
- Line 49 passes an undefined variable `$handler`. The model does what is evidently
  meant there: it defers the callback `$callback` (see the comment in `Handle`).
- Commit and rollback require an open transaction.
- The source's `shouldBeSync` returns true (run now) when no transaction is open. With
  a transaction open, it returns true exactly when the subject neither uses
  `TransactionAware` nor is whitelisted. So marked subjects are the ones that get
  deferred.
  The model follows the code.

## Model

| member | source | states |
|---|---|---|
| `Lifecycle.Initial` | src/TransactionHandler.php:31-37 | a new handler has an empty stack, so no transaction is active; every bucket is empty and nothing has run |
| `Handler.TransactionHandler.constructor` | src/TransactionHandler.php:31-37 | the constructed object is in the `Initial` state for the given whitelist |
| `Lifecycle.IsTransactionActive` | src/TransactionHandler.php:136-139 | a transaction is active exactly when the stack is non-empty |
| `Lifecycle.ShouldBeSync` | src/TransactionHandler.php:122-131 | with no transaction open, the subject runs now; otherwise it is deferred exactly when it uses `TransactionAware` or is whitelisted, objects by class name and plain values by value |
| `Lifecycle.Begun` | src/TransactionHandler.php:87-90 | begin makes the depth grow by one and puts the connection at depth `old depth + 1`; transactions at lower depths keep their place; the pending map and the trace are unchanged |
| `Handler.TransactionHandler.TransactionBeginning` | src/TransactionHandler.php:87-90 | the object moves to `Begun(old state, connection)` |
| `Lifecycle.PushedPending` | src/TransactionHandler.php:57-60 | the callback is appended at the end of the current depth's bucket; every other bucket, the stack and the trace are unchanged |
| `Handler.TransactionHandler.PushPendingHandler` | src/TransactionHandler.php:57-60 | the object moves to `PushedPending(old state, callback)` |
| `Lifecycle.Handled` | src/TransactionHandler.php:44-51 | on the sync path the callback runs, appended to the trace, and the stack and buckets are unchanged; otherwise the depth is at least 1 and the callback is appended to that depth's bucket, with nothing run |
| `Handler.TransactionHandler.Handle` | src/TransactionHandler.php:44-51 | the object moves to `Handled(old state, …)`; the result is the callback's value on the sync path and nothing otherwise |
| `Lifecycle.IndexOf` | src/TransactionHandler.php:99 | `array_search` gives no index exactly when the name is absent; otherwise it gives the first index holding the name |
| `Lifecycle.MergeLevel` | src/TransactionHandler.php:99-101 | no merge level exactly when the name is absent from the remaining stack or first at its index 0; otherwise the level is `i + 1` for the first index `i >= 1` holding the name |
| `Lifecycle.Committed` | src/TransactionHandler.php:92-108 | commit pops exactly the front entry, so the depth drops by one |
| `Lifecycle.CommitRunsBucket` | src/TransactionHandler.php:94-106 | with no usable match, every handler of the committed depth runs once, in order; every bucket, the committed one included, is left as it was |
| `Lifecycle.CommitMerges` | src/TransactionHandler.php:99-102 | with a first match at index `i >= 1`, nothing runs; bucket `i + 1` becomes its old contents followed by the committed handlers, and every other bucket is unchanged |
| `Handler.TransactionHandler.TransactionCommitted` | src/TransactionHandler.php:92-108 | the object moves to `Committed(old state, connection)`; the loop runs the bucket's handlers in order |
| `Lifecycle.RolledBack` | src/TransactionHandler.php:110-114 | rollback removes only the bucket at the depth before the pop, runs nothing, and drops exactly the front stack entry; all other buckets are unchanged |
| `Handler.TransactionHandler.TransactionRolledBack` | src/TransactionHandler.php:110-114 | the object moves to `RolledBack(old state)` |
| `Lifecycle.CommittedCorrected` | src/TransactionHandler.php:92-108 | the corrected commit pops the front entry and always removes the committed depth's bucket |
| `Lifecycle.CorrectedCommitMergesOrRuns` | src/TransactionHandler.php:96-106 | corrected commit, name still on the stack: nothing runs, and the handlers are appended to the bucket of the nearest enclosing transaction on that connection; name absent: they all run, in order |
| `Traces.Step` | src/TransactionHandler.php:65-85 | an event fails exactly when it is a commit or rollback that finds no transaction open |
| `Traces.WellNestedUnfold` | src/TransactionHandler.php:87-114 | a sequence is well nested exactly when its first event finds a transaction open if it needs one and the rest is well nested from the new depth |
| `Traces.DepthAccounting` | src/TransactionHandler.php:87-114 | a replay succeeds exactly when every commit or rollback finds a transaction open; the final depth is then the initial depth plus the begins minus the commits and rollbacks |
| `Traces.IdleSubmitRunsNow` | src/TransactionHandler.php:44-47 | with no transaction open, a submitted callback runs immediately and nothing is deferred |
| `Traces.AwareSubjectRunsOnCommit` | src/TransactionHandler.php:124-127 | a `TransactionAware` object submitted inside a transaction waits, and runs when that outermost transaction commits |
| `Traces.WhitelistedCommandIsDeferred` | src/TransactionHandler.php:126-127 | a whitelisted command name submitted inside a transaction is deferred at depth 1 |
| `Traces.UnmarkedSubjectRunsInsideTransaction` | src/TransactionHandler.php:124-127 | an object neither `TransactionAware` nor whitelisted runs at once, even inside a transaction |
| `Traces.RollbackDiscards` | src/TransactionHandler.php:110-114 | a callback deferred in a transaction that rolls back never runs, and its bucket is gone |
| `Accounting.BeginConserves` | src/TransactionHandler.php:87-90 | opening a transaction neither runs nor drops nor adds a callback, and buckets stay at open depths |
| `Accounting.SubmitConserves` | src/TransactionHandler.php:44-51 | a submission adds exactly its callback to what has run or is waiting, whether it runs now or is deferred |
| `Accounting.RollbackConserves` | src/TransactionHandler.php:110-114 | a rollback removes exactly the bucket of the rolled-back depth from what is waiting, and runs nothing |
| `Accounting.MergedConserves` | src/TransactionHandler.php:99-102 | merging the committed bucket into an enclosing depth moves callbacks without losing, duplicating or running any |
| `Accounting.CommitMergeConserves` | src/TransactionHandler.php:92-108 | a corrected commit that finds the connection below it keeps every callback run or waiting, exactly once |
| `Accounting.CommitRunConserves` | src/TransactionHandler.php:92-108 | a corrected commit of an outermost transaction moves its bucket from waiting to run, exactly once each |
| `Accounting.CorrectedStepConserves` | src/TransactionHandler.php:44-114 | under the corrected commit, each event keeps buckets at open depths only; the callbacks run or waiting change by exactly the submitted callback, less the bucket a rollback drops |
| `Accounting.CorrectedReplayConserves` | src/TransactionHandler.php:44-114 | over any run under the corrected commit, the callbacks run, waiting or dropped are exactly those submitted, each counted once |
| `Accounting.ExactlyOnceWhenAllEnded` | src/TransactionHandler.php:44-114 | from a fresh handler, once all transactions have ended, each submitted callback has run exactly once unless a rollback dropped it |
| `Accounting.StaleBucketRunsTwice` | src/TransactionHandler.php:94 | as written, on the run begin, defer `h`, commit, begin, commit: `h` runs twice although it was submitted once and never dropped |
| `Accounting.StaleBucketCorrected` | src/TransactionHandler.php:94 | the same run under the corrected commit runs `h` once |
| `Accounting.NestedSameConnectionAsWritten` | src/TransactionHandler.php:99 | as written, with two nested transactions on one connection, the inner commit runs the deferred callback while the outer one is still open |
| `Accounting.NestedSameConnectionCorrected` | src/TransactionHandler.php:99 | corrected, the inner commit moves the callback to depth 1 and only the outer commit runs it |
| `Accounting.NestedAuditShape` | src/TransactionHandler.php:44-60 | on the stack `mysql, audit, mysql` with one deferral per transaction, each callback waits in the bucket of its own depth and nothing has run |
| `Accounting.MergeIntoWrongDepthAsWritten` | src/TransactionHandler.php:99-102 | as written, on the stack `mysql, audit, mysql` with `f`, `g`, `h` deferred at depths 1, 2, 3, the inner commit merges `h` into the bucket of `audit`, after `g`; a rollback of `audit` then loses `h`, and the outer `mysql` commit runs only `f` |
| `Accounting.MergeIntoWrongDepthCorrected` | src/TransactionHandler.php:99-102 | corrected, `h` joins the outer `mysql` bucket at depth 1 after `f`, and both run when that transaction commits |

## Left out

- `setTransactionListeners` and the event classes are wiring into the framework's event dispatcher. The three lifecycle methods are entry points of the class instead.
- The `Connection` object is left out. Only its name is used.
- `class_uses_recursive` and `get_class` look up classes at run time. They become the fields of `Subject`.
- Invoking a closure is a foreign call. It becomes an append to `ran`, and the sync-path result becomes `invoke(callback)`.
- Exceptions thrown by a callback are not modelled. In the source, such an exception stops the commit loop and propagates to the caller. The model has no such path.
- Loading the configuration array is left out. The whitelist is passed to the constructor.
- Visibility is not modelled. Several of the source's methods are `protected`; in the model they are ordinary methods.
- PHP's loose comparison in `in_array` and `array_search` is not modelled; for example, `"1" == "01"` holds in PHP. The model compares strings exactly.
- Non-string plain subjects are left out. A plain subject carries a string value.
- `Lifecycle.Committed`: an absent bucket is read as empty. In PHP, reading an absent bucket gives `null` with a warning. `array_merge` on `null` at line 102 throws a `TypeError`.
- `Lifecycle.Handled`: models the evidently intended deferral of `$callback`. As written, line 49 passes the undefined `$handler`, which fails at run time.
- `Handler.TransactionHandler.TransactionCommitted`: requires an open transaction. PHP would instead read bucket 0 and run it, because the `array_shift` of an empty stack does nothing.
- `Handler.TransactionHandler.TransactionRolledBack`: requires an open transaction. PHP would instead drop bucket 0.
- `Handler.TransactionHandler.Handle`: on the deferral path it returns `None`, which is what is intended there. As written, `handler` is declared to return `mixed` but has no `return` on that path (lines 48-50). So in PHP the deferral path throws a `TypeError` when the function ends, even once line 49 passes `$callback`. The model does not capture that error.
- `Handler.TransactionHandler.PushPendingHandler` is public, so a caller can defer at depth 0 with no transaction open. Bucket 0 is then never read by commit or rollback. The model allows this and proves nothing more about it.

## Findings

| source | as written | input that shows it | evidently intended | confidence | as-written member | corrected member |
|---|---|---|---|---|---|---|
| src/TransactionHandler.php:94 | the committed bucket is read but never removed | begin `mysql`, defer `h`, commit, begin `mysql`, commit: `h` runs twice | a committed bucket is drained, so each callback runs at most once | proved in the model; not executed | `Accounting.StaleBucketRunsTwice` | `Lifecycle.CommittedCorrected`, `Accounting.ExactlyOnceWhenAllEnded` |
| src/TransactionHandler.php:99 | `array_search` result tested for truthiness, so a match at index 0 reads as "not found" | begin `mysql`, begin `mysql`, defer `h`, commit `mysql`: `h` runs while the outer transaction is open | any match merges into the enclosing transaction | proved in the model; not executed | `Accounting.NestedSameConnectionAsWritten` | `Accounting.NestedSameConnectionCorrected`, `Lifecycle.CorrectedCommitMergesOrRuns` |
| src/TransactionHandler.php:101 | index `i` of the most-recent-first stack taken as depth `i + 1` | begin `mysql`, defer `f`; begin `audit`, defer `g`; begin `mysql`, defer `h`; commit `mysql`; roll back `audit`; commit `mysql`: only `f` runs, `h` never does | index `i` is depth `depth - i` after the pop, the depth of the matching transaction | proved in the model; not executed | `Accounting.MergeIntoWrongDepthAsWritten` | `Accounting.MergeIntoWrongDepthCorrected`, `Lifecycle.CorrectedCommitMergesOrRuns` |
