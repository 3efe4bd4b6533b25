/**
 * The state of a `TransactionHandler` as a value, and one function per operation
 * that says what the operation does to it.
 *
 * The stack `transactions` holds connection names, most recently begun first, so
 * the transaction at depth `d` (1 = outermost) sits at index `|transactions| - d`.
 * `pending` maps a nesting depth to the handlers deferred there, in submission
 * order; an absent depth is read as the empty sequence.  `ran` is the trace of
 * handlers that have been invoked, in order.
 */
module Lifecycle {
  import opened Wrappers

  /** What `handler` is asked to dispatch: an object, known by its class name and
      by whether its class (or a parent) uses the `TransactionAware` trait, or a
      plain value such as a command name. */
  datatype Subject =
    | Object(className: string, usesTransactionAware: bool)
    | Plain(value: string)

  datatype State<H> = State(
    whitelist: set<string>,
    transactions: seq<string>,
    pending: map<nat, seq<H>>,
    ran: seq<H>)

  function Depth<H>(s: State<H>): nat {
    |s.transactions|
  }

  /** The handlers deferred at `depth`; a depth with no entry holds none. */
  function Bucket<H>(pending: map<nat, seq<H>>, depth: nat): seq<H> {
    if depth in pending then pending[depth] else []
  }

  /** Connection name of the open transaction at `depth` (1 = outermost). */
  function TransactionAt<H>(s: State<H>, depth: nat): string
    requires 1 <= depth <= Depth(s)
  {
    s.transactions[Depth(s) - depth]
  }

  /** The state a freshly constructed handler starts in. */
  function Initial<H>(whitelist: set<string>): (s: State<H>)
    ensures s.whitelist == whitelist && s.ran == []
    ensures Depth(s) == 0 && !IsTransactionActive(s)
    ensures forall d: nat :: Bucket(s.pending, d) == []
  {
    State(whitelist, [], map[], [])
  }

  function IsTransactionActive<H>(s: State<H>): (active: bool)
    ensures active <==> s.transactions != []
  {
    |s.transactions| > 0
  }

  predicate UsesTransactionAware(subject: Subject) {
    subject.Object? && subject.usesTransactionAware
  }

  /** Objects are looked up by class name, anything else by its own value. */
  predicate IsWhitelisted(whitelist: set<string>, subject: Subject) {
    match subject
    case Object(className, _) => className in whitelist
    case Plain(value) => value in whitelist
  }

  /** True when `subject` is dispatched at once rather than deferred. */
  function ShouldBeSync<H>(s: State<H>, subject: Subject): (sync: bool)
    ensures !IsTransactionActive(s) ==> sync
    ensures !sync <==>
      IsTransactionActive(s) && (UsesTransactionAware(subject) || IsWhitelisted(s.whitelist, subject))
  {
    if IsTransactionActive(s) then
      var isTransactionAware := UsesTransactionAware(subject);
      var isWhitelisted := IsWhitelisted(s.whitelist, subject);
      !isTransactionAware && !isWhitelisted
    else
      true
  }

  /** `transactionBeginning`: push the connection name on the front of the stack. */
  function Begun<H>(s: State<H>, connection: string): (r: State<H>)
    ensures Depth(r) == Depth(s) + 1
    ensures r.transactions[0] == connection && r.transactions[1..] == s.transactions
    ensures TransactionAt(r, Depth(r)) == connection
    ensures forall d :: 1 <= d <= Depth(s) ==> TransactionAt(r, d) == TransactionAt(s, d)
    ensures r.pending == s.pending && r.ran == s.ran && r.whitelist == s.whitelist
  {
    s.(transactions := [connection] + s.transactions)
  }

  /** `pushPendingHandler`: append `callback` to the bucket of the current depth. */
  function PushedPending<H>(s: State<H>, callback: H): (r: State<H>)
    ensures Bucket(r.pending, Depth(s)) == Bucket(s.pending, Depth(s)) + [callback]
    ensures forall d: nat :: d != Depth(s) ==> Bucket(r.pending, d) == Bucket(s.pending, d)
    ensures r.pending.Keys == s.pending.Keys + {Depth(s)}
    ensures r.transactions == s.transactions && r.ran == s.ran && r.whitelist == s.whitelist
  {
    var depth := |s.transactions|;
    s.(pending := s.pending[depth := Bucket(s.pending, depth) + [callback]])
  }

  /** `handler`: invoke the callback now, or defer it at the current depth.
      The source passes an undefined variable where the callback is meant;
      this models the intended call, which defers the callback itself. */
  function Handled<H>(s: State<H>, subject: Subject, callback: H): (r: State<H>)
    ensures ShouldBeSync(s, subject) ==>
      r.ran == s.ran + [callback] && r.pending == s.pending && r.transactions == s.transactions
    ensures !ShouldBeSync(s, subject) ==>
      Depth(s) >= 1 && r.ran == s.ran && r == PushedPending(s, callback)
    ensures r.whitelist == s.whitelist
  {
    if ShouldBeSync(s, subject) then
      s.(ran := s.ran + [callback])
    else
      PushedPending(s, callback)
  }

  /** PHP's `array_search`: the first index at which `needle` occurs, if any. */
  function IndexOf(haystack: seq<string>, needle: string): (index: Option<nat>)
    ensures index.None? <==> needle !in haystack
    ensures index.Some? ==>
      index.value < |haystack| && haystack[index.value] == needle && needle !in haystack[..index.value]
  {
    if haystack == [] then None
    else if haystack[0] == needle then Some(0)
    else
      match IndexOf(haystack[1..], needle)
      case Some(i) => Some(i + 1)
      case None => None
  }

  /** The depth a committed bucket is merged into, as the source computes it:
      the search result is tested for truthiness, so a match at index 0 reads as
      "not found", and a match at index `i` is turned into depth `i + 1`. */
  function MergeLevel(rest: seq<string>, connection: string): (level: Option<nat>)
    ensures level.None? <==> connection !in rest || rest[0] == connection
    ensures level.Some? ==>
      2 <= level.value <= |rest| && rest[level.value - 1] == connection
      && connection !in rest[..level.value - 1]
  {
    match IndexOf(rest, connection)
    case Some(i) => if i == 0 then None else Some(i + 1)
    case None => None
  }

  /** `transactionCommitted` as written: read (and keep) the bucket of the
      committed depth, pop, then either merge that bucket into `MergeLevel` or
      run its handlers in order. */
  function Committed<H>(s: State<H>, connection: string): (r: State<H>)
    requires IsTransactionActive(s)
    ensures Depth(r) == Depth(s) - 1 && r.transactions == s.transactions[1..]
    ensures r.whitelist == s.whitelist
  {
    var handlers := Bucket(s.pending, |s.transactions|);
    var rest := s.transactions[1..];
    match MergeLevel(rest, connection)
    case Some(level) =>
      s.(transactions := rest, pending := s.pending[level := Bucket(s.pending, level) + handlers])
    case None =>
      s.(transactions := rest, ran := s.ran + handlers)
  }

  /** `transactionRolledBack`: drop the bucket of the current depth, then pop. */
  function RolledBack<H>(s: State<H>): (r: State<H>)
    requires IsTransactionActive(s)
    ensures Depth(r) == Depth(s) - 1 && r.transactions == s.transactions[1..]
    ensures Depth(s) !in r.pending && Bucket(r.pending, Depth(s)) == []
    ensures forall d: nat :: d != Depth(s) ==> Bucket(r.pending, d) == Bucket(s.pending, d)
    ensures r.ran == s.ran && r.whitelist == s.whitelist
  {
    s.(pending := s.pending - {|s.transactions|}, transactions := s.transactions[1..])
  }

  /** Commit as the source evidently intends it: the committed bucket is removed,
      and it is merged into the depth of the nearest enclosing transaction on the
      same connection whenever there is one (whatever its index), or else run. */
  function CommittedCorrected<H>(s: State<H>, connection: string): (r: State<H>)
    requires IsTransactionActive(s)
    ensures Depth(r) == Depth(s) - 1 && r.transactions == s.transactions[1..]
    ensures Depth(s) !in r.pending
    ensures r.whitelist == s.whitelist
  {
    var depth := |s.transactions|;
    var handlers := Bucket(s.pending, depth);
    var rest := s.transactions[1..];
    var drained := s.pending - {depth};
    match IndexOf(rest, connection)
    case Some(i) =>
      var outer := |rest| - i;
      s.(transactions := rest, pending := drained[outer := Bucket(drained, outer) + handlers])
    case None =>
      s.(transactions := rest, pending := drained, ran := s.ran + handlers)
  }

  // ---------------------------------------------------------------------------
  // What a commit does, stated in the terms of the stack it finds.

  /** No usable match (the name is absent from the remaining stack, or first at
      its index 0): every handler of the committed depth runs once, in order, and
      every bucket, the committed one included, is left as it was. */
  lemma CommitRunsBucket<H>(s: State<H>, connection: string)
    requires IsTransactionActive(s)
    requires connection !in s.transactions[1..] || s.transactions[1] == connection
    ensures var r := Committed(s, connection);
      && r.ran == s.ran + Bucket(s.pending, Depth(s))
      && r.pending == s.pending
      && r.transactions == s.transactions[1..]
  {
  }

  /** A first match at index `i >= 1` of the remaining stack: nothing runs, and
      the committed handlers are appended, in order, to the bucket of depth
      `i + 1`; every other bucket is unchanged. */
  lemma CommitMerges<H>(s: State<H>, connection: string, i: nat)
    requires IsTransactionActive(s)
    requires 1 <= i < |s.transactions| - 1
    requires s.transactions[1..][i] == connection && connection !in s.transactions[1..][..i]
    ensures var r := Committed(s, connection);
      && r.ran == s.ran
      && Bucket(r.pending, i + 1) == Bucket(s.pending, i + 1) + Bucket(s.pending, Depth(s))
      && (forall d: nat :: d != i + 1 ==> Bucket(r.pending, d) == Bucket(s.pending, d))
      && r.transactions == s.transactions[1..]
  {
  }

  /** The corrected commit always drains the committed depth.  If the name is
      still on the stack, nothing runs and the handlers join, after the ones
      already there, the bucket of the nearest enclosing transaction on that
      connection; otherwise they all run, in order, and the rest is untouched. */
  lemma CorrectedCommitMergesOrRuns<H>(s: State<H>, connection: string)
    requires IsTransactionActive(s)
    ensures var r := CommittedCorrected(s, connection);
      && Bucket(r.pending, Depth(s)) == []
      && (connection !in s.transactions[1..] ==>
            && r.ran == s.ran + Bucket(s.pending, Depth(s))
            && forall d: nat :: d != Depth(s) ==> Bucket(r.pending, d) == Bucket(s.pending, d))
      && (connection in s.transactions[1..] ==>
            && r.ran == s.ran
            && exists outer :: 1 <= outer <= Depth(r)
                 && TransactionAt(r, outer) == connection
                 && (forall d :: outer < d <= Depth(r) ==> TransactionAt(r, d) != connection)
                 && Bucket(r.pending, outer) == Bucket(s.pending, outer) + Bucket(s.pending, Depth(s))
                 && forall d: nat :: d != outer && d != Depth(s) ==> Bucket(r.pending, d) == Bucket(s.pending, d))
  {
    var r := CommittedCorrected(s, connection);
    var rest := s.transactions[1..];
    if connection in rest {
      var i := IndexOf(rest, connection).value;
      var outer := |rest| - i;
      assert r.ran == s.ran && r.transactions == rest
        && r.pending == (s.pending - {Depth(s)})[outer := Bucket(s.pending, outer) + Bucket(s.pending, Depth(s))];
      assert TransactionAt(r, outer) == rest[i];
      forall d | outer < d <= Depth(r) ensures TransactionAt(r, d) != connection {
        assert rest[..i][|rest| - d] == rest[|rest| - d];
      }
    } else {
      assert r.ran == s.ran + Bucket(s.pending, Depth(s)) && r.pending == s.pending - {Depth(s)};
    }
  }
}
