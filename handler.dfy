/**
 * The `TransactionHandler` object itself.  Its fields are updated in place by
 * the three lifecycle callbacks and by `Handle`; each method is proved to move
 * the object from `old(Model())` to the state its `Lifecycle` function names.
 *
 * Running a closure is modelled by appending its token to `ran`; the value a
 * synchronously run closure returns is `invoke(callback)`.
 */
module Handler {
  import opened Wrappers
  import opened Lifecycle

  class TransactionHandler<H, V> {
    /** The configured `transaction.whitelist`. */
    const whitelist: set<string>
    /** What a callback returns when it is invoked. */
    const invoke: H -> V

    /** Connection names of the open transactions, most recent first. */
    var transactions: seq<string>
    /** Deferred callbacks per nesting depth, in submission order. */
    var pending: map<nat, seq<H>>
    /** Every callback invoked so far, in order. */
    var ran: seq<H>

    function Model(): State<H>
      reads this
    {
      State(whitelist, transactions, pending, ran)
    }

    constructor (whitelist: set<string>, invoke: H -> V)
      ensures Model() == Initial(whitelist)
      ensures this.invoke == invoke
    {
      this.whitelist := whitelist;
      this.invoke := invoke;
      transactions := [];
      pending := map[];
      ran := [];
    }

    /** Run `callback` now if `command` should be sync, else defer it. */
    method Handle(command: Subject, callback: H) returns (result: Option<V>)
      modifies this
      ensures Model() == Handled(old(Model()), command, callback)
      ensures result == if ShouldBeSync(old(Model()), command) then Some(invoke(callback)) else None
    {
      if ShouldBeSync(Model(), command) {
        ran := ran + [callback];
        result := Some(invoke(callback));
      } else {
        // The source passes an undefined `$handler` here; `$callback` is meant.
        PushPendingHandler(callback);
        // No value is meant here; the source returns nothing on this path.
        result := None;
      }
    }

    method PushPendingHandler(callback: H)
      modifies this
      ensures Model() == PushedPending(old(Model()), callback)
    {
      var depth := |transactions|;
      pending := pending[depth := Bucket(pending, depth) + [callback]];
    }

    method TransactionBeginning(connection: string)
      modifies this
      ensures Model() == Begun(old(Model()), connection)
    {
      transactions := [connection] + transactions;
    }

    method TransactionCommitted(connection: string)
      requires IsTransactionActive(Model())
      modifies this
      ensures Model() == Committed(old(Model()), connection)
    {
      var handlers := Bucket(pending, |transactions|);
      transactions := transactions[1..];
      var level := MergeLevel(transactions, connection);
      if level.Some? {
        pending := pending[level.value := Bucket(pending, level.value) + handlers];
      } else {
        for i := 0 to |handlers|
          invariant ran == old(ran) + handlers[..i]
          invariant transactions == old(transactions)[1..] && pending == old(pending)
        {
          ran := ran + [handlers[i]];
        }
        assert handlers[..|handlers|] == handlers;
      }
    }

    /** The connection is not consulted: rollback always concerns the innermost
        transaction. */
    method TransactionRolledBack(connection: string)
      requires IsTransactionActive(Model())
      modifies this
      ensures Model() == RolledBack(old(Model()))
    {
      pending := pending - {|transactions|};
      transactions := transactions[1..];
    }
  }
}
