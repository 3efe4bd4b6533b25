/**
 * Where every submitted callback ends up.  Under the corrected commit each one
 * is, at every moment, in exactly one place: run once, waiting in the bucket of
 * an open transaction, or dropped by a rollback.  The commit as written breaks
 * this in three ways, each exhibited below on a concrete run.
 */
module Accounting {
  import opened Wrappers
  import opened Lifecycle
  import opened Traces

  /** The callbacks waiting at depths `lo+1..hi`, outermost first. */
  ghost function Held<H>(pending: map<nat, seq<H>>, lo: nat, hi: nat): seq<H>
    decreases hi
  {
    if hi <= lo then [] else Held(pending, lo, hi - 1) + Bucket(pending, hi)
  }

  /** Buckets exist only for depths of open transactions. */
  ghost predicate Tidy<H>(s: State<H>) {
    forall d :: d in s.pending ==> 1 <= d <= Depth(s)
  }

  /** Callbacks that have run or are still waiting. */
  ghost function Accounted<H>(s: State<H>): multiset<H> {
    multiset(s.ran + Held(s.pending, 0, Depth(s)))
  }

  ghost function Submitted<H>(e: Event<H>): multiset<H> {
    if e.Submit? then multiset{e.callback} else multiset{}
  }

  /** The callbacks a rollback throws away. */
  ghost function Dropped<H>(s: State<H>, e: Event<H>): multiset<H> {
    if e.Rollback? then multiset(Bucket(s.pending, Depth(s))) else multiset{}
  }

  ghost function SubmittedAll<H>(events: seq<Event<H>>): multiset<H> {
    if events == [] then multiset{} else Submitted(events[0]) + SubmittedAll(events[1..])
  }

  ghost function DroppedAll<H>(v: Variant, s: State<H>, events: seq<Event<H>>): multiset<H>
    decreases |events|
  {
    if events == [] then multiset{}
    else
      match Step(v, s, events[0])
      case Some(next) => Dropped(s, events[0]) + DroppedAll(v, next, events[1..])
      case None => multiset{}
  }

  /** Maps that agree on the buckets `lo+1..hi` hold the same callbacks there. */
  lemma {:induction false} HeldFrame<H>(p: map<nat, seq<H>>, q: map<nat, seq<H>>, lo: nat, hi: nat)
    requires forall d :: lo < d <= hi ==> Bucket(p, d) == Bucket(q, d)
    ensures Held(p, lo, hi) == Held(q, lo, hi)
    decreases hi
  {
    if hi > lo {
      HeldFrame(p, q, lo, hi - 1);
    }
  }

  lemma {:induction false} HeldSplit<H>(p: map<nat, seq<H>>, lo: nat, mid: nat, hi: nat)
    requires lo <= mid <= hi
    ensures Held(p, lo, hi) == Held(p, lo, mid) + Held(p, mid, hi)
    decreases hi
  {
    if hi > mid {
      HeldSplit(p, lo, mid, hi - 1);
    }
  }

  // Reorderings of run and waiting callbacks that leave the multiset unchanged.

  lemma RanNow<H>(ran: seq<H>, held: seq<H>, callback: H)
    ensures multiset((ran + [callback]) + held) == multiset(ran + held) + multiset{callback}
  {
  }

  lemma WaitsLast<H>(ran: seq<H>, below: seq<H>, bucket: seq<H>, callback: H)
    ensures multiset(ran + (below + (bucket + [callback]))) == multiset(ran + (below + bucket)) + multiset{callback}
  {
  }

  lemma DropsLast<H>(ran: seq<H>, below: seq<H>, bucket: seq<H>)
    ensures multiset(ran + below) + multiset(bucket) == multiset(ran + (below + bucket))
  {
  }

  lemma RunsLast<H>(ran: seq<H>, below: seq<H>, bucket: seq<H>)
    ensures multiset((ran + bucket) + below) == multiset(ran + (below + bucket))
  {
  }

  lemma MovesLast<H>(ran: seq<H>, below: seq<H>, target: seq<H>, between: seq<H>, bucket: seq<H>)
    ensures multiset(ran + ((below + (target + bucket)) + between))
         == multiset(ran + (((below + target) + between) + bucket))
  {
  }

  // The four kinds of event under the corrected commit.

  lemma BeginConserves<H>(s: State<H>, connection: string)
    requires Tidy(s)
    ensures Tidy(Begun(s, connection)) && Accounted(Begun(s, connection)) == Accounted(s)
  {
    var n := Depth(s);
    assert Bucket(s.pending, n + 1) == [];
    assert Held(s.pending, 0, n + 1) == Held(s.pending, 0, n) + [];
  }

  lemma SubmitConserves<H>(s: State<H>, subject: Subject, callback: H)
    requires Tidy(s)
    ensures var r := Handled(s, subject, callback);
      Tidy(r) && Accounted(r) == Accounted(s) + multiset{callback}
  {
    var n := Depth(s);
    var r := Handled(s, subject, callback);
    if ShouldBeSync(s, subject) {
      assert r.ran == s.ran + [callback] && r.pending == s.pending && Depth(r) == n;
      RanNow(s.ran, Held(s.pending, 0, n), callback);
    } else {
      var bucket := Bucket(s.pending, n);
      var below := Held(s.pending, 0, n - 1);
      assert r.pending == s.pending[n := bucket + [callback]] && r.ran == s.ran && Depth(r) == n >= 1;
      HeldFrame(r.pending, s.pending, 0, n - 1);
      assert Held(r.pending, 0, n) == below + (bucket + [callback]);
      assert Held(s.pending, 0, n) == below + bucket;
      WaitsLast(s.ran, below, bucket, callback);
    }
  }

  lemma RollbackConserves<H>(s: State<H>)
    requires Tidy(s) && IsTransactionActive(s)
    ensures var r := RolledBack(s);
      Tidy(r) && Accounted(r) + multiset(Bucket(s.pending, Depth(s))) == Accounted(s)
  {
    var n := Depth(s);
    var r := RolledBack(s);
    var bucket := Bucket(s.pending, n);
    var below := Held(s.pending, 0, n - 1);
    assert r.pending == s.pending - {n} && r.ran == s.ran && Depth(r) == n - 1;
    assert Held(r.pending, 0, n - 1) == below by {
      HeldFrame(r.pending, s.pending, 0, n - 1);
    }
    assert Held(s.pending, 0, n) == below + bucket;
    DropsLast(s.ran, below, bucket);
  }

  /** Draining depth `n` into an enclosing depth `outer` only moves callbacks. */
  lemma HeldMerge<H>(ran: seq<H>, p: map<nat, seq<H>>, n: nat, outer: nat)
    requires 1 <= outer < n
    ensures multiset(ran + Held((p - {n})[outer := Bucket(p, outer) + Bucket(p, n)], 0, n - 1))
         == multiset(ran + Held(p, 0, n))
  {
    var bucket, target := Bucket(p, n), Bucket(p, outer);
    var q := (p - {n})[outer := target + bucket];
    var below, between := Held(p, 0, outer - 1), Held(p, outer, n - 1);
    assert Held(q, 0, outer - 1) == below by {
      HeldFrame(q, p, 0, outer - 1);
    }
    assert Held(q, outer, n - 1) == between by {
      HeldFrame(q, p, outer, n - 1);
    }
    assert Held(q, 0, outer) == below + (target + bucket);
    HeldSplit(q, 0, outer, n - 1);
    assert Held(q, 0, n - 1) == (below + (target + bucket)) + between;
    HeldSplit(p, 0, outer, n - 1);
    assert Held(p, 0, n) == ((below + target) + between) + bucket;
    MovesLast(ran, below, target, between, bucket);
  }

  /** The state a merging commit produces, with the commit's own choice of
      depth taken as a parameter. */
  ghost function Merged<H>(s: State<H>, outer: nat): State<H>
    requires IsTransactionActive(s)
  {
    var n := Depth(s);
    s.(transactions := s.transactions[1..],
       pending := (s.pending - {n})[outer := Bucket(s.pending, outer) + Bucket(s.pending, n)])
  }

  lemma MergedTidy<H>(s: State<H>, outer: nat)
    requires Tidy(s) && IsTransactionActive(s) && 1 <= outer < Depth(s)
    ensures Tidy(Merged(s, outer))
  {
  }

  lemma MergedConserves<H>(s: State<H>, outer: nat)
    requires IsTransactionActive(s) && 1 <= outer < Depth(s)
    ensures Accounted(Merged(s, outer)) == Accounted(s)
  {
    var n := Depth(s);
    var r := Merged(s, outer);
    assert Depth(r) == n - 1 && r.ran == s.ran;
    assert r.pending == (s.pending - {n})[outer := Bucket(s.pending, outer) + Bucket(s.pending, n)];
    HeldMerge(s.ran, s.pending, n, outer);
  }

  lemma CommitMergeConserves<H>(s: State<H>, connection: string, i: nat)
    requires Tidy(s) && IsTransactionActive(s)
    requires IndexOf(s.transactions[1..], connection) == Some(i)
    ensures var r := CommittedCorrected(s, connection);
      Tidy(r) && Accounted(r) == Accounted(s)
  {
    var n := Depth(s);
    var outer := n - 1 - i;
    assert CommittedCorrected(s, connection) == Merged(s, outer);
    MergedTidy(s, outer);
    MergedConserves(s, outer);
  }

  lemma CommitRunConserves<H>(s: State<H>, connection: string)
    requires Tidy(s) && IsTransactionActive(s)
    requires IndexOf(s.transactions[1..], connection) == None
    ensures var r := CommittedCorrected(s, connection);
      Tidy(r) && Accounted(r) == Accounted(s)
  {
    var n := Depth(s);
    var bucket := Bucket(s.pending, n);
    var below := Held(s.pending, 0, n - 1);
    var r := CommittedCorrected(s, connection);
    assert r.pending == s.pending - {n} && r.ran == s.ran + bucket && Depth(r) == n - 1;
    assert Held(r.pending, 0, n - 1) == below by {
      HeldFrame(r.pending, s.pending, 0, n - 1);
    }
    assert Held(s.pending, 0, n) == below + bucket;
    RunsLast(s.ran, below, bucket);
  }

  /** One event under the corrected commit: buckets stay tidy, and what is run
      or waiting changes only by the submitted callback and the dropped bucket. */
  lemma CorrectedStepConserves<H>(s: State<H>, e: Event<H>)
    requires Tidy(s) && Step(Corrected, s, e).Some?
    ensures var r := Step(Corrected, s, e).value;
      Tidy(r) && Accounted(r) + Dropped(s, e) == Accounted(s) + Submitted(e)
  {
    match e
    case Begin(c) =>
      assert Step(Corrected, s, e) == Some(Begun(s, c));
      BeginConserves(s, c);
    case Submit(subject, h) =>
      assert Step(Corrected, s, e) == Some(Handled(s, subject, h));
      SubmitConserves(s, subject, h);
    case Rollback(_) =>
      assert Step(Corrected, s, e) == Some(RolledBack(s));
      RollbackConserves(s);
    case Commit(c) =>
      assert Step(Corrected, s, e) == Some(CommittedCorrected(s, c));
      match IndexOf(s.transactions[1..], c)
      case Some(i) => CommitMergeConserves(s, c, i);
      case None => CommitRunConserves(s, c);
  }

  /** Over a whole run under the corrected commit, every submitted callback is
      run, still waiting, or dropped by a rollback: exactly one of these, once. */
  lemma {:induction false} CorrectedReplayConserves<H>(s: State<H>, events: seq<Event<H>>)
    requires Tidy(s) && Replay(Corrected, s, events).Some?
    decreases |events|
    ensures var r := Replay(Corrected, s, events).value;
      Tidy(r) && Accounted(r) + DroppedAll(Corrected, s, events) == Accounted(s) + SubmittedAll(events)
  {
    if events != [] {
      var e, tail := events[0], events[1..];
      var next := Step(Corrected, s, e).value;
      CorrectedStepConserves(s, e);
      CorrectedReplayConserves(next, tail);
      var r := Replay(Corrected, next, tail).value;
      calc {
        Accounted(r) + DroppedAll(Corrected, s, events);
        Accounted(r) + DroppedAll(Corrected, next, tail) + Dropped(s, e);
        Accounted(next) + SubmittedAll(tail) + Dropped(s, e);
        Accounted(s) + Submitted(e) + SubmittedAll(tail);
        Accounted(s) + SubmittedAll(events);
      }
    }
  }

  /** From a fresh handler, once every transaction has ended, each submitted
      callback has run exactly once unless a rollback dropped it. */
  lemma ExactlyOnceWhenAllEnded<H>(whitelist: set<string>, events: seq<Event<H>>)
    requires Replay(Corrected, Initial(whitelist), events).Some?
    requires Depth(Replay(Corrected, Initial(whitelist), events).value) == 0
    ensures multiset(Replay(Corrected, Initial(whitelist), events).value.ran)
            + DroppedAll(Corrected, Initial(whitelist), events)
         == SubmittedAll(events)
  {
    var s0 := Initial<H>(whitelist);
    assert Accounted(s0) == multiset{};
    CorrectedReplayConserves(s0, events);
    var r := Replay(Corrected, s0, events).value;
    assert Accounted(r) == multiset(r.ran);
  }

  // ---------------------------------------------------------------------------
  // The commit as written, on concrete runs.  `aware` is deferred in any
  // transaction.

  const aware := Object("SendInvoice", true)

  /** Open, defer, commit, then open and commit again on the same connection. */
  function ReopenRun<H>(h: H): seq<Event<H>> {
    [Begin("mysql"), Submit(aware, h), Commit("mysql"), Begin("mysql"), Commit("mysql")]
  }

  lemma ReopenRunAsWritten<H>(h: H)
    ensures Replay(AsWritten, Initial({}), ReopenRun(h)) == Some(State({}, [], map[1 := [h]], [h, h]))
  {
    var events := ReopenRun(h);
    var s1 := Begun(Initial<H>({}), "mysql");
    var s2 := Handled(s1, aware, h);
    assert !ShouldBeSync(s1, aware) && Bucket(s1.pending, 1) + [h] == [h];
    assert s2 == State({}, ["mysql"], map[1 := [h]], []);
    var s3 := Committed(s2, "mysql");
    assert s3 == State({}, [], map[1 := [h]], [h]);
    var s4 := Begun(s3, "mysql");
    var s5 := Committed(s4, "mysql");
    assert s5 == State({}, [], map[1 := [h]], [h, h]);
    assert Replay(AsWritten, s4, events[4..]) == Some(s5);
    assert Replay(AsWritten, s3, events[3..]) == Some(s5);
    assert Replay(AsWritten, s2, events[2..]) == Some(s5);
    assert Replay(AsWritten, s1, events[1..]) == Some(s5);
  }

  lemma ReopenRunDropsNothing<H>(h: H)
    ensures DroppedAll(AsWritten, Initial({}), ReopenRun(h)) == multiset{}
  {
    var events := ReopenRun(h);
    var s1 := Begun(Initial<H>({}), "mysql");
    var s2 := Handled(s1, aware, h);
    assert !ShouldBeSync(s1, aware) && Bucket(s1.pending, 1) + [h] == [h];
    assert s2 == State({}, ["mysql"], map[1 := [h]], []);
    var s3 := Committed(s2, "mysql");
    assert s3 == State({}, [], map[1 := [h]], [h]);
    var s4 := Begun(s3, "mysql");
    assert DroppedAll(AsWritten, s4, events[4..]) == multiset{};
    assert DroppedAll(AsWritten, s3, events[3..]) == multiset{};
    assert DroppedAll(AsWritten, s2, events[2..]) == multiset{};
    assert DroppedAll(AsWritten, s1, events[1..]) == multiset{};
  }

  /** The committed bucket is read but never removed, so the next transaction
      opened at the same depth runs it again on commit: the callback, submitted
      once and never dropped, runs twice. */
  lemma StaleBucketRunsTwice<H>(h: H)
    ensures var r := Replay(AsWritten, Initial({}), ReopenRun(h));
      && r.Some? && Depth(r.value) == 0 && r.value.ran == [h, h]
      && DroppedAll(AsWritten, Initial({}), ReopenRun(h)) == multiset{}
      && SubmittedAll(ReopenRun(h)) == multiset{h}
      && multiset(r.value.ran) != SubmittedAll(ReopenRun(h))
  {
    var events := ReopenRun(h);
    ReopenRunAsWritten(h);
    ReopenRunDropsNothing(h);
    assert SubmittedAll(events[2..]) == multiset{} by {
      assert SubmittedAll(events[4..]) == multiset{};
      assert SubmittedAll(events[3..]) == multiset{};
    }
    assert SubmittedAll(events) == multiset{h};
    assert multiset([h, h]) == multiset{h, h};
  }

  /** The same run with the corrected commit: the callback runs once. */
  lemma StaleBucketCorrected<H>(h: H)
    ensures var r := Replay(Corrected, Initial({}), ReopenRun(h));
      r.Some? && Depth(r.value) == 0 && r.value.ran == [h]
  {
    var events := ReopenRun(h);
    var s0 := Initial<H>({});
    var s1 := Begun(s0, "mysql");
    var s2 := Handled(s1, aware, h);
    var s3 := CommittedCorrected(s2, "mysql");
    var s4 := Begun(s3, "mysql");
    var s5 := CommittedCorrected(s4, "mysql");
    assert s2.transactions == ["mysql"] && s2.ran == [] && Bucket(s2.pending, 1) == [h];
    assert s3.ran == [h] && Bucket(s3.pending, 1) == [] && s3.transactions == [];
    assert s5.ran == [h] && s5.transactions == [];
    assert Replay(Corrected, s4, events[4..]) == Some(s5);
    assert Replay(Corrected, s3, events[3..]) == Some(s5);
    assert Replay(Corrected, s2, events[2..]) == Some(s5);
    assert Replay(Corrected, s1, events[1..]) == Some(s5);
  }

  /** Nested transactions on one connection: the enclosing one is found at
      index 0 of the remaining stack, which the source's truthiness test reads
      as "not found", so the callback runs while the outer transaction is open. */
  lemma NestedSameConnectionAsWritten<H>(h: H)
    ensures var s := Handled(Begun(Begun(Initial({}), "mysql"), "mysql"), aware, h);
      Committed(s, "mysql").ran == [h]
  {
  }

  /** The same run with the corrected commit: the callback waits for the
      outermost commit. */
  lemma NestedSameConnectionCorrected<H>(h: H)
    ensures var s := Handled(Begun(Begun(Initial({}), "mysql"), "mysql"), aware, h);
      var inner := CommittedCorrected(s, "mysql");
      inner.ran == [] && Bucket(inner.pending, 1) == [h] && CommittedCorrected(inner, "mysql").ran == [h]
  {
  }

  /** Stack `mysql, audit, mysql` (outermost first), each transaction having
      deferred one callback of its own: `f`, `g` and `h`. */
  function NestedAudit<H>(f: H, g: H, h: H): State<H> {
    var outer := Handled(Begun(Initial({}), "mysql"), aware, f);
    var audit := Handled(Begun(outer, "audit"), aware, g);
    Handled(Begun(audit, "mysql"), aware, h)
  }

  lemma NestedAuditShape<H>(f: H, g: H, h: H)
    ensures var s := NestedAudit(f, g, h);
      && s.transactions == ["mysql", "audit", "mysql"] && s.ran == []
      && s.pending == map[1 := [f], 2 := [g], 3 := [h]]
  {
    var s1 := Begun(Initial<H>({}), "mysql");
    assert !ShouldBeSync(s1, aware) && Bucket(s1.pending, 1) + [f] == [f];
    var s2 := Handled(s1, aware, f);
    assert s2.pending == map[1 := [f]];
    var s3 := Begun(s2, "audit");
    assert !ShouldBeSync(s3, aware) && Bucket(s3.pending, 2) + [g] == [g];
    var s4 := Handled(s3, aware, g);
    assert s4.pending == map[1 := [f], 2 := [g]];
    var s5 := Begun(s4, "mysql");
    assert !ShouldBeSync(s5, aware) && Bucket(s5.pending, 3) + [h] == [h];
  }

  /** The inner `mysql` commit finds the outer one at index 1 and merges `h`
      into depth 2, the bucket of `audit`; rolling back `audit` then loses `h`
      although the outer `mysql` transaction commits and runs only `f`.  Every
      bucket read on the way is present. */
  lemma MergeIntoWrongDepthAsWritten<H>(f: H, g: H, h: H)
    ensures var merged := Committed(NestedAudit(f, g, h), "mysql");
      && Bucket(merged.pending, 2) == [g, h] && TransactionAt(merged, 2) == "audit"
      && Committed(RolledBack(merged), "mysql").ran == [f]
  {
    var s := NestedAudit(f, g, h);
    NestedAuditShape(f, g, h);
    assert s.transactions[1..] == ["audit", "mysql"];
    assert MergeLevel(s.transactions[1..], "mysql") == Some(2);
    var merged := Committed(s, "mysql");
    assert merged.pending == s.pending[2 := Bucket(s.pending, 2) + Bucket(s.pending, 3)];
    assert Bucket(merged.pending, 1) == [f] && Bucket(merged.pending, 2) == [g, h] && merged.ran == [];
    var dropped := RolledBack(merged);
    assert dropped.transactions == ["mysql"] && Bucket(dropped.pending, 1) == [f];
  }

  /** The same run with the corrected commit: `h` joins the outer `mysql`
      bucket at depth 1 and runs after `f` when that transaction commits. */
  lemma MergeIntoWrongDepthCorrected<H>(f: H, g: H, h: H)
    ensures var merged := CommittedCorrected(NestedAudit(f, g, h), "mysql");
      && Bucket(merged.pending, 1) == [f, h] && TransactionAt(merged, 1) == "mysql"
      && CommittedCorrected(RolledBack(merged), "mysql").ran == [f, h]
  {
    var s := NestedAudit(f, g, h);
    NestedAuditShape(f, g, h);
    assert s.transactions[1..] == ["audit", "mysql"];
    assert IndexOf(s.transactions[1..], "mysql") == Some(1);
    var merged := CommittedCorrected(s, "mysql");
    assert merged.pending == (s.pending - {3})[1 := Bucket(s.pending - {3}, 1) + Bucket(s.pending, 3)];
    assert Bucket(merged.pending, 1) == [f, h] && merged.ran == [];
    var dropped := RolledBack(merged);
    assert dropped.transactions == ["mysql"] && Bucket(dropped.pending, 1) == [f, h];
  }
}
