/**
 * Sequences of lifecycle notifications and submissions, replayed on the state.
 * `AsWritten` commits as the source does; `Corrected` commits as
 * `Lifecycle.CommittedCorrected` does.  Everything else is shared.
 */
module Traces {
  import opened Wrappers
  import opened Lifecycle

  datatype Event<H> =
    | Begin(connection: string)
    | Commit(connection: string)
    | Rollback(connection: string)
    | Submit(subject: Subject, callback: H)

  datatype Variant = AsWritten | Corrected

  predicate Closes<H>(e: Event<H>) {
    e.Commit? || e.Rollback?
  }

  /** One event; `None` when a commit or rollback finds no open transaction. */
  function Step<H>(v: Variant, s: State<H>, e: Event<H>): (r: Option<State<H>>)
    ensures r.None? <==> Closes(e) && !IsTransactionActive(s)
    ensures r.Some? ==> r.value.whitelist == s.whitelist
  {
    match e
    case Begin(c) => Some(Begun(s, c))
    case Submit(subject, h) => Some(Handled(s, subject, h))
    case Commit(c) =>
      if !IsTransactionActive(s) then None
      else if v == AsWritten then Some(Committed(s, c))
      else Some(CommittedCorrected(s, c))
    case Rollback(_) =>
      if !IsTransactionActive(s) then None else Some(RolledBack(s))
  }

  function Replay<H>(v: Variant, s: State<H>, events: seq<Event<H>>): Option<State<H>>
    decreases |events|
  {
    if events == [] then Some(s)
    else
      match Step(v, s, events[0])
      case Some(next) => Replay(v, next, events[1..])
      case None => None
  }

  function Opened<H>(events: seq<Event<H>>): nat {
    if events == [] then 0 else (if events[0].Begin? then 1 else 0) + Opened(events[1..])
  }

  function Closed<H>(events: seq<Event<H>>): nat {
    if events == [] then 0 else (if Closes(events[0]) then 1 else 0) + Closed(events[1..])
  }

  /** Every commit or rollback in `events` finds an open transaction, starting
      from `depth` open ones. */
  ghost predicate WellNested<H>(depth: nat, events: seq<Event<H>>) {
    forall k :: 0 <= k < |events| && Closes(events[k]) ==>
      Closed(events[..k]) < depth + Opened(events[..k])
  }

  lemma {:induction false} WellNestedUnfold<H>(depth: nat, events: seq<Event<H>>)
    requires events != []
    ensures WellNested(depth, events) <==>
      && (Closes(events[0]) ==> depth > 0)
      && WellNested(depth + (if events[0].Begin? then 1 else 0) - (if Closes(events[0]) then 1 else 0), events[1..])
  {
    var e, tail := events[0], events[1..];
    var up, down := (if e.Begin? then 1 else 0), (if Closes(e) then 1 else 0);
    assert events[..0] == [];
    forall k | 0 <= k < |tail|
      ensures Opened(events[..k + 1]) == up + Opened(tail[..k])
      ensures Closed(events[..k + 1]) == down + Closed(tail[..k])
    {
      assert events[..k + 1][1..] == tail[..k];
    }
    if WellNested(depth, events) {
      forall k | 0 <= k < |tail| && Closes(tail[k])
        ensures Closed(tail[..k]) < depth + up - down + Opened(tail[..k])
      {
        assert events[k + 1] == tail[k];
      }
    }
    if (Closes(e) ==> depth > 0) && WellNested(depth + up - down, tail) {
      forall k | 0 <= k < |events| && Closes(events[k])
        ensures Closed(events[..k]) < depth + Opened(events[..k])
      {
        if k > 0 {
          assert events[k] == tail[k - 1];
        }
      }
    }
  }

  /** Depth accounting: a replay succeeds exactly when the events are well
      nested, and then the final depth is the starting depth plus the begins
      minus the commits and rollbacks. */
  lemma {:induction false} DepthAccounting<H>(v: Variant, s: State<H>, events: seq<Event<H>>)
    decreases |events|
    ensures Replay(v, s, events).Some? <==> WellNested(Depth(s), events)
    ensures Replay(v, s, events).Some? ==>
      Depth(Replay(v, s, events).value) + Closed(events) == Depth(s) + Opened(events)
  {
    if events != [] {
      WellNestedUnfold(Depth(s), events);
      var step := Step(v, s, events[0]);
      if step.Some? {
        DepthAccounting(v, step.value, events[1..]);
      }
    }
  }

  // ---------------------------------------------------------------------------
  // Scenarios, each started from a fresh handler.

  /** With no transaction open, a submitted callback runs at once. */
  lemma IdleSubmitRunsNow<H>(whitelist: set<string>, subject: Subject, h: H)
    ensures var r := Handled(Initial(whitelist), subject, h);
      r.ran == [h] && r.pending == map[]
  {
  }

  /** A `TransactionAware` object is deferred until its transaction commits. */
  lemma AwareSubjectRunsOnCommit<H>(h: H)
    ensures var s1 := Handled(Begun(Initial({}), "mysql"), Object("SendInvoice", true), h);
      s1.ran == [] && Committed(s1, "mysql").ran == [h]
  {
  }

  /** A whitelisted command name is deferred too. */
  lemma WhitelistedCommandIsDeferred<H>(h: H)
    ensures var r := Handled(Begun(Initial({"SendWelcomeEmail"}), "mysql"), Plain("SendWelcomeEmail"), h);
      r.ran == [] && Bucket(r.pending, 1) == [h]
  {
  }

  /** A subject that is neither `TransactionAware` nor whitelisted runs at once,
      even inside a transaction. */
  lemma UnmarkedSubjectRunsInsideTransaction<H>(h: H)
    ensures var r := Handled(Begun(Initial({"SendWelcomeEmail"}), "mysql"), Object("LogVisit", false), h);
      r.ran == [h] && Bucket(r.pending, 1) == []
  {
  }

  /** Rollback discards the deferred callback for good. */
  lemma RollbackDiscards<H>(h: H)
    ensures var r := RolledBack(Handled(Begun(Initial({}), "mysql"), Object("SendInvoice", true), h));
      r.ran == [] && Bucket(r.pending, 1) == [] && Depth(r) == 0
  {
  }
}
