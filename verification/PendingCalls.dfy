/** The pending calls of an HTTP/2 connection, src/core/http2_client/http_connection.cc.

    Requests are put into a map of pending calls and taken out again by whoever finishes them: a
    failed send, a closed stream, or a cancellation of everything pending. All of these run
    concurrently, and each method here is one atomic step of one of them.
 */
module PendingCalls {
  import opened Common

  /** What a request is finished with: a retry or a failure if it was cancelled, or else a result of its
      own, by what was sent and received.
   */
  datatype Verdict = Retry | Failure | Outcome(result: nat)

  /** Someone who finishes the calls `keys` one after the other: it erases a call from the map and, only
      if that worked, finishes it. `io` is whether it runs on the I/O thread, `before` how many calls
      had been inserted when it started, and `sweep` whether it cancels all that was pending then. If
      not, it has a `result` to finish its call with.
   */
  datatype Finisher = Finisher(keys: seq<nat>, at: nat, finishing: bool, sweep: bool, io: bool, before: nat,
                               result: nat)

  predicate Through(f: Finisher) {
    !f.finishing && f.at >= |f.keys|
  }

  predicate AllThrough(fs: seq<Finisher>) {
    forall n :: 0 <= n < |fs| ==> Through(fs[n])
  }

  /** Nothing is left to do on the I/O thread. */
  predicate IoThrough(fs: seq<Finisher>) {
    forall n :: 0 <= n < |fs| && fs[n].io ==> Through(fs[n])
  }

  /** A sweep asks for a retry if the connection is dropped. */
  function Judged(f: Finisher, dropped: bool): (v: Verdict) {
    if !f.sweep then Outcome(f.result) else if dropped then Retry else Failure
  }

  ghost function Done(finished: seq<(nat, Verdict)>): (ids: set<nat>) {
    set i | 0 <= i < |finished| :: finished[i].0
  }

  lemma DoneMore(finished: seq<(nat, Verdict)>, last: (nat, Verdict))
    ensures Done(finished + [last]) == Done(finished) + {last.0}
  {
    assert (finished + [last])[|finished|] == last;
    assert forall i :: 0 <= i < |finished| ==> (finished + [last])[i] == finished[i];
  }

  /** What holds of the n-th finisher. */
  ghost predicate Honest(f: Finisher, n: nat, issued: nat, pending: set<nat>, owed: map<nat, nat>) {
    && f.at <= |f.keys| && f.before <= issued
    && (f.finishing ==> f.at < |f.keys| && f.keys[f.at] in owed && owed[f.keys[f.at]] == n)
    && (forall i :: 0 <= i < |f.keys| ==> f.keys[i] < f.before)
    // What it has dealt with is not pending.
    && (forall i :: 0 <= i < f.at ==> f.keys[i] !in pending)
    // A sweep has yet to deal with all that was pending when it started and still is.
    && (f.sweep ==> forall id :: id in pending && id < f.before ==> id in f.keys)
  }

  ghost predicate AllHonest(fs: seq<Finisher>, issued: nat, pending: set<nat>, owed: map<nat, nat>) {
    forall n {:trigger fs[n]} :: 0 <= n < |fs| ==> Honest(fs[n], n, issued, pending, owed)
  }

  /** Finisher n is about to finish call `id`. */
  ghost predicate Owing(fs: seq<Finisher>, id: nat, n: nat) {
    n < |fs| && fs[n].finishing && fs[n].at < |fs[n].keys| && fs[n].keys[fs[n].at] == id
  }

  ghost predicate AllOwing(fs: seq<Finisher>, owed: map<nat, nat>) {
    forall id :: id in owed ==> Owing(fs, id, owed[id])
  }

  /** Every request is pending, or being finished by the one whose erasure succeeded, or finished;
      and it is finished once.
   */
  ghost predicate Counted(pending: set<nat>, owed: map<nat, nat>, finished: seq<(nat, Verdict)>, issued: nat) {
    && pending !! owed.Keys !! Done(finished) && pending + owed.Keys + Done(finished) == Below(issued)
    && (forall i, j :: 0 <= i < j < |finished| ==> finished[i].0 != finished[j].0)
  }

  /** The finisher had that call to finish, and would finish it so. */
  predicate Explains(f: Finisher, e: (nat, Verdict)) {
    e.0 in f.keys && if f.sweep then e.1.Retry? || e.1.Failure? else e.1 == Outcome(f.result)
  }

  ghost predicate Explained(fs: seq<Finisher>, e: (nat, Verdict)) {
    exists n :: 0 <= n < |fs| && Explains(fs[n], e)
  }

  /** Finishers are in the order in which they started, and the finished calls are theirs. */
  ghost predicate Traced(fs: seq<Finisher>, finished: seq<(nat, Verdict)>) {
    && (forall i, j :: 0 <= i < j < |fs| ==> fs[i].before <= fs[j].before)
    && (forall i :: 0 <= i < |finished| ==> Explained(fs, finished[i]))
  }

  lemma CountedMore(pending: set<nat>, owed: map<nat, nat>, finished: seq<(nat, Verdict)>, issued: nat,
                    last: (nat, Verdict))
    requires Counted(pending, owed, finished, issued) && last.0 in owed
    ensures Counted(pending, owed - {last.0}, finished + [last], issued)
  {
    DoneMore(finished, last);
    assert (owed - {last.0}).Keys == owed.Keys - {last.0};
    assert forall i :: 0 <= i < |finished| ==> finished[i].0 in Done(finished);
  }

  datatype State = State(ready: bool, dropped: bool, serving: bool, callers: nat, issued: nat, pending: set<nat>,
                         finishers: seq<Finisher>, finished: seq<(nat, Verdict)>)

  ghost predicate Seen(s: State, key: int) { true }

  /** Sealed: a proof looks inside only where it says Seen. */
  ghost predicate Coherent(s: State, owed: map<nat, nat>) {
    forall key {:trigger Seen(s, key)} :: Seen(s, key) ==>
      && Counted(s.pending, owed, s.finished, s.issued) && AllHonest(s.finishers, s.issued, s.pending, owed)
      && AllOwing(s.finishers, owed) && Traced(s.finishers, s.finished) && (s.serving || IoThrough(s.finishers))
  }

  // What a finisher's step does to each of these.

  lemma Erased(fs: seq<Finisher>, n: nat, issued: nat, pending: set<nat>, owed: map<nat, nat>, id: nat, f: Finisher)
    requires AllHonest(fs, issued, pending, owed) && AllOwing(fs, owed) && id !in owed
    requires n < |fs| && !fs[n].finishing && fs[n].at < |fs[n].keys| && id == fs[n].keys[fs[n].at]
    requires f == fs[n].(finishing := true)
    ensures AllHonest(fs[n := f], issued, pending - {id}, owed[id := n]) && AllOwing(fs[n := f], owed[id := n])
  {
  }

  lemma Missed(fs: seq<Finisher>, n: nat, issued: nat, pending: set<nat>, owed: map<nat, nat>, f: Finisher)
    requires AllHonest(fs, issued, pending, owed) && AllOwing(fs, owed)
    requires n < |fs| && !fs[n].finishing && fs[n].at < |fs[n].keys| && fs[n].keys[fs[n].at] !in pending
    requires f == fs[n].(at := fs[n].at + 1)
    ensures AllHonest(fs[n := f], issued, pending, owed) && AllOwing(fs[n := f], owed)
  {
  }

  lemma Finished(fs: seq<Finisher>, n: nat, issued: nat, pending: set<nat>, owed: map<nat, nat>, id: nat, f: Finisher)
    requires AllHonest(fs, issued, pending, owed) && AllOwing(fs, owed) && id !in pending
    requires n < |fs| && fs[n].finishing && fs[n].at < |fs[n].keys| && id == fs[n].keys[fs[n].at]
    requires f == fs[n].(at := fs[n].at + 1, finishing := false)
    ensures AllHonest(fs[n := f], issued, pending, owed - {id}) && AllOwing(fs[n := f], owed - {id})
  {
    var gs := fs[n := f];
    forall m | 0 <= m < |gs|
      ensures Honest(gs[m], m, issued, pending, owed - {id})
    {
      assert Honest(fs[m], m, issued, pending, owed);
      assert Honest(fs[n], n, issued, pending, owed);
    }
  }

  /** A finisher whose task is still the same. */
  predicate Same(f: Finisher, g: Finisher) {
    f.keys == g.keys && f.sweep == g.sweep && f.before == g.before && f.result == g.result
  }

  lemma StillTraced(fs: seq<Finisher>, gs: seq<Finisher>, finished: seq<(nat, Verdict)>)
    requires Traced(fs, finished) && |fs| <= |gs|
    requires forall n :: 0 <= n < |fs| ==> Same(gs[n], fs[n])
    requires forall m, n :: 0 <= m < n < |gs| && |fs| <= n ==> gs[m].before <= gs[n].before
    ensures Traced(gs, finished)
  {
    forall i | 0 <= i < |finished|
      ensures Explained(gs, finished[i])
    {
      var n :| 0 <= n < |fs| && Explains(fs[n], finished[i]);
      assert Explains(gs[n], finished[i]);
    }
  }

  lemma TracedMore(fs: seq<Finisher>, n: nat, f: Finisher, finished: seq<(nat, Verdict)>, last: (nat, Verdict))
    requires Traced(fs, finished) && n < |fs| && Same(f, fs[n]) && Explains(f, last)
    ensures Traced(fs[n := f], finished + [last])
  {
    StillTraced(fs, fs[n := f], finished);
    assert Explains(fs[n := f][n], last);
  }

  // What each step does to all of them.

  lemma FlagsKept(s: State, owed: map<nat, nat>, ready: bool, dropped: bool, callers: nat)
    requires Coherent(s, owed)
    ensures Coherent(s.(ready := ready, dropped := dropped, callers := callers), owed)
  {
    assert Seen(s, 0);
  }

  lemma ServingKept(s: State, owed: map<nat, nat>, serving: bool)
    requires Coherent(s, owed) && (serving || IoThrough(s.finishers))
    ensures Coherent(s.(serving := serving), owed)
  {
    assert Seen(s, 0);
  }

  lemma InsertKept(s: State, owed: map<nat, nat>)
    requires Coherent(s, owed) && s.callers > 0
    ensures Coherent(Inserted(s), owed)
  {
    assert Seen(s, 0);
    assert Below(s.issued + 1) == Below(s.issued) + {s.issued};
  }

  lemma StartKept(s: State, owed: map<nat, nat>, f: Finisher)
    requires Coherent(s, owed) && f.at == 0 && !f.finishing && f.before == s.issued && (f.io ==> s.serving)
    requires forall id :: id in f.keys ==> id < s.issued
    requires f.sweep ==> forall id :: id in s.pending ==> id in f.keys
    ensures Coherent(s.(finishers := s.finishers + [f]), owed)
  {
    assert Seen(s, 0);
    StillHonest(s.finishers, f, s.issued, s.pending, owed);
    StillTraced(s.finishers, s.finishers + [f], s.finished);
    StillOwing(s.finishers, f, owed);
  }

  lemma StillHonest(fs: seq<Finisher>, f: Finisher, issued: nat, pending: set<nat>, owed: map<nat, nat>)
    requires AllHonest(fs, issued, pending, owed) && f.at == 0 && !f.finishing && f.before == issued
    requires forall id :: id in f.keys ==> id < issued
    requires f.sweep ==> forall id :: id in pending ==> id in f.keys
    ensures AllHonest(fs + [f], issued, pending, owed)
    ensures forall n :: 0 <= n < |fs| ==> fs[n].before <= f.before
  {
    assert forall i :: 0 <= i < |f.keys| ==> f.keys[i] in f.keys;
    forall n | 0 <= n < |fs|
      ensures Honest(fs[n], n, issued, pending, owed)
    {
    }
  }

  lemma StillOwing(fs: seq<Finisher>, f: Finisher, owed: map<nat, nat>)
    requires AllOwing(fs, owed)
    ensures AllOwing(fs + [f], owed)
  {
    forall id | id in owed
      ensures Owing(fs + [f], id, owed[id])
    {
      assert Owing(fs, id, owed[id]);
    }
  }

  lemma Somewhere(s: State, owed: map<nat, nat>, id: nat)
    requires Coherent(s, owed) && AllThrough(s.finishers) && id < s.issued
    ensures id in s.pending <==> id !in Done(s.finished)
  {
    assert Seen(s, 0);
    assert id in Below(s.issued);
    NoneOwed(s.finishers, owed);
  }

  lemma NoneOwed(fs: seq<Finisher>, owed: map<nat, nat>)
    requires AllOwing(fs, owed) && AllThrough(fs)
    ensures owed.Keys == {}
  {
  }

  lemma PendingAfter(s: State, owed: map<nat, nat>, id: nat)
    requires Coherent(s, owed) && AllThrough(s.finishers) && Swept(s) && id in s.pending
    ensures s.finishers[|s.finishers| - 1].before <= id
  {
    assert Seen(s, 0);
    var n := |s.finishers| - 1;
    assert Honest(s.finishers[n], n, s.issued, s.pending, owed);
  }

  lemma DoneBefore(s: State, owed: map<nat, nat>, id: nat)
    requires Coherent(s, owed) && s.finishers != [] && id in Done(s.finished)
    ensures id < s.finishers[|s.finishers| - 1].before
  {
    assert Seen(s, 0);
    var n := |s.finishers| - 1;
    var i :| 0 <= i < |s.finished| && s.finished[i].0 == id;
    assert Explained(s.finishers, s.finished[i]);
    var m :| 0 <= m < |s.finishers| && Explains(s.finishers[m], s.finished[i]);
    assert Honest(s.finishers[m], m, s.issued, s.pending, owed);
    assert m < n ==> s.finishers[m].before <= s.finishers[n].before;
  }

  lemma FinishedOnce(s: State, owed: map<nat, nat>)
    requires Coherent(s, owed)
    ensures forall i, j :: 0 <= i < j < |s.finished| ==> s.finished[i].0 != s.finished[j].0
    ensures forall i :: 0 <= i < |s.finished| ==> Explained(s.finishers, s.finished[i])
  {
    assert Seen(s, 0);
  }

  lemma InRange(s: State, owed: map<nat, nat>, n: nat)
    requires Coherent(s, owed) && n < |s.finishers|
    ensures s.finishers[n].finishing ==> s.finishers[n].at < |s.finishers[n].keys|
  {
    assert Seen(s, 0);
  }

  lemma PendingIssued(s: State, owed: map<nat, nat>)
    requires Coherent(s, owed)
    ensures forall id :: id in s.pending ==> id < s.issued
  {
    assert Seen(s, 0);
    forall id | id in s.pending
      ensures id < s.issued
    {
      assert id in s.pending + owed.Keys + Done(s.finished);
    }
  }

  lemma EraseKept(s: State, owed: map<nat, nat>, n: nat)
    requires Coherent(s, owed) && n < |s.finishers| && Trying(s.finishers[n])
    requires s.finishers[n].keys[s.finishers[n].at] in s.pending
    ensures var id := s.finishers[n].keys[s.finishers[n].at];
      Coherent(s.(finishers := s.finishers[n := s.finishers[n].(finishing := true)], pending := s.pending - {id}),
               owed[id := n])
  {
    assert Seen(s, 0);
    var f := s.finishers[n];
    var id, g := f.keys[f.at], f.(finishing := true);
    Erased(s.finishers, n, s.issued, s.pending, owed, id, g);
    StillTraced(s.finishers, s.finishers[n := g], s.finished);
    if !s.serving {
      IoKept(s.finishers, n, g);
    }
  }

  lemma MissKept(s: State, owed: map<nat, nat>, n: nat)
    requires Coherent(s, owed) && n < |s.finishers| && Trying(s.finishers[n])
    requires s.finishers[n].keys[s.finishers[n].at] !in s.pending
    ensures Coherent(s.(finishers := s.finishers[n := s.finishers[n].(at := s.finishers[n].at + 1)]), owed)
  {
    assert Seen(s, 0);
    var f := s.finishers[n];
    var g := f.(at := f.at + 1);
    Missed(s.finishers, n, s.issued, s.pending, owed, g);
    StillTraced(s.finishers, s.finishers[n := g], s.finished);
    if !s.serving {
      IoKept(s.finishers, n, g);
    }
  }

  lemma FinishKept(s: State, owed: map<nat, nat>, n: nat, v: Verdict)
    requires Coherent(s, owed) && n < |s.finishers| && s.finishers[n].finishing
    requires if s.finishers[n].sweep then v.Retry? || v.Failure? else v == Outcome(s.finishers[n].result)
    ensures s.finishers[n].at < |s.finishers[n].keys|
    ensures var f := s.finishers[n]; var id := f.keys[f.at];
      Coherent(s.(finishers := s.finishers[n := f.(at := f.at + 1, finishing := false)],
                  finished := s.finished + [(id, v)]), owed - {id})
  {
    InRange(s, owed, n);
    var f := s.finishers[n];
    var id, g := f.keys[f.at], f.(at := f.at + 1, finishing := false);
    FinishHonest(s, owed, n, id, g);
    FinishTraced(s, owed, n, g, (id, v));
  }

  lemma FinishHonest(s: State, owed: map<nat, nat>, n: nat, id: nat, f: Finisher)
    requires Coherent(s, owed) && n < |s.finishers| && s.finishers[n].finishing
    requires s.finishers[n].at < |s.finishers[n].keys| && id == s.finishers[n].keys[s.finishers[n].at]
    requires f == s.finishers[n].(at := s.finishers[n].at + 1, finishing := false)
    ensures AllHonest(s.finishers[n := f], s.issued, s.pending, owed - {id})
    ensures AllOwing(s.finishers[n := f], owed - {id}) && id in owed
  {
    assert Seen(s, 0);
    Finished(s.finishers, n, s.issued, s.pending, owed, id, f);
  }

  lemma FinishTraced(s: State, owed: map<nat, nat>, n: nat, f: Finisher, last: (nat, Verdict))
    requires Coherent(s, owed) && n < |s.finishers| && !Through(s.finishers[n]) && last.0 in owed
    requires Same(f, s.finishers[n]) && f.io == s.finishers[n].io && Explains(f, last)
    ensures Counted(s.pending, owed - {last.0}, s.finished + [last], s.issued)
    ensures Traced(s.finishers[n := f], s.finished + [last]) && (s.serving || IoThrough(s.finishers[n := f]))
  {
    assert Seen(s, 0);
    CountedMore(s.pending, owed, s.finished, s.issued, last);
    TracedMore(s.finishers, n, f, s.finished, last);
    if !s.serving {
      IoKept(s.finishers, n, f);
    }
  }

  lemma IoKept(fs: seq<Finisher>, n: nat, f: Finisher)
    requires n < |fs| && f.io == fs[n].io && !Through(fs[n]) && IoThrough(fs)
    ensures IoThrough(fs[n := f])
  {
  }

  /** About to try to erase its next call. */
  predicate Trying(f: Finisher) {
    !f.finishing && f.at < |f.keys|
  }

  function Inserted(s: State): (t: State)
    requires s.callers > 0
  {
    s.(callers := s.callers - 1, issued := s.issued + 1, pending := s.pending + {s.issued})
  }

  class HttpConnection {
    var ready: bool
    var dropped: bool
    var serving: bool  // the I/O thread is running
    var callers: nat  // calls of Execute that found the connection ready and are about to insert
    var issued: nat   // numbers the requests in the order of their insertion
    var pending: set<nat>
    var finishers: seq<Finisher>
    // Who has erased a call that it has yet to finish; the finished calls, in order.
    ghost var owed: map<nat, nat>
    var finished: seq<(nat, Verdict)>

    ghost predicate Valid()
      reads this
    {
      Coherent(Now(), owed)
    }

    ghost function Now(): (s: State)
      reads this
    {
      State(ready, dropped, serving, callers, issued, pending, finishers, finished)
    }

    constructor ()
      ensures Valid() && pending == {} && issued == 0 && finishers == [] && finished == []
      ensures !ready && !dropped && !serving && callers == 0
    {
      ready, dropped, serving, callers, issued := false, false, false, 0, 0;
      pending, finishers, owed, finished := {}, [], map[], [];
    }

    /** Init and Run: there is an I/O thread. */
    method Start()
      requires Valid() && !serving
      modifies this`serving
      ensures Valid() && serving
    {
      ServingKept(Now(), owed, true);
      serving := true;
    }

    /** In Stop, the I/O service is stopped and its thread joined, which takes until nothing is left to
        do there.
     */
    method Halt()
      requires Valid() && serving && IoThrough(finishers)
      modifies this`serving
      ensures Valid() && !serving
    {
      ServingKept(Now(), owed, false);
      serving := false;
    }

    /** OnConnectionCreated, on the I/O thread. */
    method Connected()
      requires Valid() && serving
      modifies this`ready
      ensures Valid() && ready
    {
      FlagsKept(Now(), owed, true, dropped, callers);
      ready := true;
    }

    /** The first half of Execute. */
    method Admit() returns (ok: bool)
      requires Valid()
      modifies this`callers
      ensures Valid() && ok == ready && callers == old(callers) + if ok then 1 else 0
    {
      ok := ready;
      if ok {
        FlagsKept(Now(), owed, ready, dropped, callers + 1);
        callers := callers + 1;
      }
    }

    /** The second half of Execute: the call becomes pending, whatever has happened since. */
    method Insert() returns (id: nat)
      requires Valid() && callers > 0
      modifies this`callers, this`issued, this`pending
      ensures Valid() && id == old(issued) && issued == id + 1 && pending == old(pending) + {id}
              && callers == old(callers) - 1
    {
      InsertKept(Now(), owed);
      id := issued;
      callers, issued, pending := callers - 1, issued + 1, pending + {id};
    }

    /** On the I/O thread a send fails or a stream closes: someone sets out to finish one call, perhaps
        not the first.
     */
    method StartOne(id: nat, result: nat)
      requires Valid() && serving && id < issued
      modifies this`finishers
      ensures Valid() && finishers == old(finishers) + [Finisher([id], 0, false, false, true, issued, result)]
    {
      var f := Finisher([id], 0, false, false, true, issued, result);
      StartKept(Now(), owed, f);
      finishers := finishers + [f];
    }

    /** The connection breaks down, which the I/O thread sees, or is being stopped. */
    method Unready(drop: bool)
      requires Valid() && (drop ==> serving)
      modifies this`ready, this`dropped
      ensures Valid() && !ready && dropped == (old(dropped) || drop)
    {
      FlagsKept(Now(), owed, false, dropped || drop, callers);
      ready, dropped := false, dropped || drop;
    }

    /** The connection is to be made again. */
    method Reset()
      requires Valid()
      modifies this`ready, this`dropped
      ensures Valid() && !ready && !dropped
    {
      FlagsKept(Now(), owed, false, false, callers);
      ready, dropped := false, false;
    }

    /** CancelPendingCallbacks, on the I/O thread or in Stop, takes the keys of the map, in some order. */
    method StartSweep(keys: seq<nat>, io: bool)
      requires Valid() && (io ==> serving) && forall id :: id in keys <==> id in pending
      modifies this`finishers
      ensures Valid() && finishers == old(finishers) + [Finisher(keys, 0, false, true, io, issued, 0)]
    {
      PendingIssued(Now(), owed);
      var f := Finisher(keys, 0, false, true, io, issued, 0);
      StartKept(Now(), owed, f);
      finishers := finishers + [f];
    }

    /** A finisher tries to erase its next call. */
    method Erase(n: nat) returns (ok: bool)
      requires Valid() && n < |finishers| && !finishers[n].finishing && finishers[n].at < |finishers[n].keys|
      modifies this`pending, this`finishers, this`owed
      ensures Valid()
      ensures var id := old(finishers)[n].keys[old(finishers)[n].at];
        ok == (id in old(pending)) && pending == old(pending) - {id}
      ensures var f := old(finishers)[n];
        finishers == old(finishers)[n := if ok then f.(finishing := true) else f.(at := f.at + 1)]
    {
      var f := finishers[n];
      var id := f.keys[f.at];
      ok := id in pending;
      if ok {
        EraseKept(Now(), owed, n);
        Claim(n, id);
      } else {
        MissKept(Now(), owed, n);
        finishers := finishers[n := f.(at := f.at + 1)];
      }
    }

    method Claim(n: nat, id: nat)
      requires n < |finishers|
      requires Coherent(Now().(finishers := finishers[n := finishers[n].(finishing := true)],
                               pending := pending - {id}),
                        owed[id := n])
      modifies this`pending, this`finishers, this`owed
      ensures Valid() && owed == old(owed)[id := n]
      ensures Now() == old(Now()).(finishers := old(finishers)[n := old(finishers)[n].(finishing := true)],
                                   pending := old(pending) - {id})
    {
      pending, owed := pending - {id}, owed[id := n];
      finishers := finishers[n := finishers[n].(finishing := true)];
    }

    /** A finisher finishes the call it has erased. A sweep asks for a retry if the connection was
        dropped.
     */
    method Finish(n: nat)
      requires Valid() && n < |finishers| && finishers[n].finishing
      modifies this`finished, this`finishers, this`owed
      ensures Valid() && old(finishers)[n].at < |old(finishers)[n].keys|
      ensures var f := old(finishers)[n];
        && finished == old(finished) +
                       [(f.keys[f.at], if !f.sweep then Outcome(f.result) else if dropped then Retry else Failure)]
        && finishers == old(finishers)[n := f.(at := f.at + 1, finishing := false)]
    {
      var f := finishers[n];
      FinishKept(Now(), owed, n, Judged(f, dropped));
      var id := f.keys[f.at];
      Record(n, f.(at := f.at + 1, finishing := false), (id, Judged(f, dropped)));
    }

    method Record(n: nat, g: Finisher, last: (nat, Verdict))
      requires n < |finishers|
      requires Coherent(Now().(finishers := finishers[n := g], finished := finished + [last]), owed - {last.0})
      modifies this`finished, this`finishers, this`owed
      ensures Valid() && owed == old(owed) - {last.0}
      ensures Now() == old(Now()).(finishers := old(finishers)[n := g], finished := old(finished) + [last])
    {
      finished, owed, finishers := finished + [last], owed - {last.0}, finishers[n := g];
    }

    /** Once the latest sweep is through, with nobody on the I/O thread to start anything else, the calls
        still pending are exactly those inserted since it took the keys, and all others are finished.
     */
    lemma Orphans(id: nat)
      requires Valid() && Swept(Now()) && AllThrough(finishers) && id < issued
      ensures id in pending <==> finishers[|finishers| - 1].before <= id
      ensures id in pending <==> id !in Done(finished)
    {
      Somewhere(Now(), owed, id);
      if id in pending {
        PendingAfter(Now(), owed, id);
      } else {
        DoneBefore(Now(), owed, id);
      }
    }

    /** One step of anybody, if it can be taken. */
    method Take(step: Step)
      requires Valid()
      modifies this
      ensures Valid() && Moves(old(Now()), step, Now())
    {
      match step {
        case Launch =>
          if !serving {
            Start();
          }
        case Join =>
          if serving && IoThrough(finishers) {
            Halt();
          }
        case Connect =>
          if serving {
            Connected();
          }
        case Enter => var _ := Admit();
        case Proceed =>
          if callers > 0 {
            var _ := Insert();
          }
        case Close(id, result) =>
          if serving && id < issued {
            StartOne(id, result);
          }
        case Drop(lost) =>
          if lost ==> serving {
            Unready(lost);
          }
        case Recycle => Reset();
        case Sweep(io) =>
          if io ==> serving {
            var keys := Listing(pending);
            StartSweep(keys, io);
          }
        case Work(n) =>
          if n < |finishers| {
            GoOn(n);
          }
      }
    }

    /** A finisher does its next step, if there is one. */
    method GoOn(n: nat)
      requires Valid() && n < |finishers|
      modifies this`pending, this`finished, this`finishers, this`owed
      ensures Valid() && Works(old(Now()), n, Now())
    {
      if finishers[n].finishing {
        Finish(n);
      } else if finishers[n].at < |finishers[n].keys| {
        var _ := Erase(n);
      }
    }

    /** Any run from any state: each step is taken, if it can be, and has its effect, which `ss` follows.
        Each request is finished at most once, and what is finished stays so. While the connection stays
        dropped, requests are cancelled only with a retry. Who was not cancelled was finished with the
        result of its own finisher. With the I/O thread joined and everybody
        through, nothing is finished any more unless Stop is called again or the connection is made
        again.
     */
    method Run(steps: seq<Step>) returns (ghost ss: seq<State>)
      requires Valid()
      modifies this
      ensures Valid() && History(ss, steps) && ss[0] == old(Now()) && ss[|steps|] == Now()
      ensures old(finished) <= finished
      ensures forall i, j :: 0 <= i < j < |finished| ==> finished[i].0 != finished[j].0
      ensures old(dropped) && Recycle !in steps ==> dropped && NoFailure(finished, |old(finished)|)
      ensures old(Quiet(Now())) && Unaided(steps) ==>
                Quiet(Now()) && old(pending) <= pending && finished == old(finished)
      ensures forall i :: 0 <= i < |finished| ==> Explained(finishers, finished[i])
      ensures NoSweep(old(finishers)) && (forall i :: 0 <= i < |steps| ==> !steps[i].Sweep?) ==>
                OwnResults(finished, |old(finished)|)
    {
      ss := [Now()];
      for k := 0 to |steps|
        invariant Valid() && |ss| == k + 1 && ss[0] == old(Now()) && ss[k] == Now()
        invariant forall i :: 0 <= i < k ==> Moves(ss[i], steps[i], ss[i + 1])
      {
        Take(steps[k]);
        ss := ss + [Now()];
      }
      HistoryKeeps(ss, steps, |steps|);
      FinishedOnce(Now(), owed);
    }

    /** Lets one finisher go on until it is through. */
    method Exhaust(n: nat)
      requires Valid() && n < |finishers|
      modifies this`pending, this`finished, this`finishers, this`owed
      ensures Valid() && |finishers| == |old(finishers)| && Through(finishers[n]) && pending <= old(pending)
      ensures Same(finishers[n], old(finishers)[n])
      ensures forall m :: 0 <= m < |finishers| && m != n ==> finishers[m] == old(finishers)[m]
    {
      while !Through(finishers[n])
        invariant Valid() && |finishers| == |old(finishers)| && pending <= old(pending)
        invariant Same(finishers[n], old(finishers)[n])
        invariant forall m :: 0 <= m < |finishers| && m != n ==> finishers[m] == old(finishers)[m]
        decreases |finishers[n].keys| - finishers[n].at, if finishers[n].finishing then 0 else 1
      {
        InRange(Now(), owed, n);
        GoOn(n);
      }
    }

    method ExhaustAll()
      requires Valid()
      modifies this`pending, this`finished, this`finishers, this`owed
      ensures Valid() && |finishers| == |old(finishers)| && AllThrough(finishers) && pending <= old(pending)
      ensures forall m :: 0 <= m < |finishers| ==> Same(finishers[m], old(finishers)[m])
    {
      for n := 0 to |finishers|
        invariant Valid() && |finishers| == |old(finishers)| && pending <= old(pending)
        invariant forall m :: 0 <= m < n ==> Through(finishers[m])
        invariant forall m :: 0 <= m < |finishers| ==> Same(finishers[m], old(finishers)[m])
      {
        Exhaust(n);
      }
    }

    /** Stop, if no call is inserted meanwhile: in the end every call is finished, once. */
    method Stop()
      requires Valid()
      modifies this
      ensures Valid() && !serving && !ready && AllThrough(finishers) && Swept(Now())
      ensures issued == old(issued) && callers == old(callers) && pending == {} && Done(finished) == Below(issued)
    {
      Unready(false);
      ExhaustAll();
      if serving {
        Halt();
      }
      var keys := Listing(pending);
      StartSweep(keys, false);
      ExhaustAll();
      AllDone();
    }

    /** If nothing was inserted since the latest sweep, it has finished everything. */
    lemma AllDone()
      requires Valid() && Swept(Now()) && AllThrough(finishers) && finishers[|finishers| - 1].before == issued
      ensures pending == {} && Done(finished) == Below(issued)
    {
      assert Seen(Now(), 0);
      assert forall id :: id in pending || id in Done(finished) ==> id in Below(issued);
      forall id | id in Below(issued)
        ensures id !in pending && id in Done(finished)
      {
        Orphans(id);
      }
    }
  }

  /** Launch is Init and Run, Join the middle of Stop. */
  datatype Step =
    | Launch | Join | Connect | Enter | Proceed | Close(id: nat, result: nat) | Drop(lost: bool) | Recycle
    | Sweep(io: bool) | Work(n: nat)

  /** With the I/O thread joined, someone has cancelled all that was pending. */
  predicate Swept(s: State) {
    !s.serving && s.finishers != [] && s.finishers[|s.finishers| - 1].sweep
  }

  /** The I/O thread is joined, and everybody is through. */
  predicate Quiet(s: State) {
    !s.serving && AllThrough(s.finishers)
  }

  /** What a step does. */
  ghost predicate Moves(s: State, step: Step, t: State) {
    match step
    case Launch => t == s.(serving := true)
    case Join => t == if IoThrough(s.finishers) then s.(serving := false) else s
    case Connect => t == if s.serving then s.(ready := true) else s
    case Enter => t == if s.ready then s.(callers := s.callers + 1) else s
    case Proceed =>
      t == if s.callers > 0 then Inserted(s) else s
    case Close(id, result) =>
      t == if s.serving && id < s.issued
           then s.(finishers := s.finishers + [Finisher([id], 0, false, false, true, s.issued, result)])
           else s
    case Drop(lost) => t == if lost && !s.serving then s else s.(ready := false, dropped := s.dropped || lost)
    case Recycle => t == s.(ready := false, dropped := false)
    case Sweep(io) => if io && !s.serving then t == s else Sweeps(s, io, t)
    case Work(n) => if n < |s.finishers| then Works(s, n, t) else t == s
  }

  ghost predicate Sweeps(s: State, io: bool, t: State) {
    && |t.finishers| == |s.finishers| + 1
    && var keys := t.finishers[|s.finishers|].keys;
       && (forall id :: id in keys <==> id in s.pending)
       && t == s.(finishers := s.finishers + [Finisher(keys, 0, false, true, io, s.issued, 0)])
  }

  /** The n-th finisher finishes the call it has erased, or tries to erase its next one. */
  ghost predicate Works(s: State, n: nat, t: State)
    requires n < |s.finishers|
  {
    var f := s.finishers[n];
    if f.at >= |f.keys| then t == s
    else
      var id := f.keys[f.at];
      if f.finishing then
        t == s.(finishers := s.finishers[n := f.(at := f.at + 1, finishing := false)],
                finished := s.finished +
                            [(id, if !f.sweep then Outcome(f.result) else if s.dropped then Retry else Failure)])
      else if id in s.pending then
        t == s.(finishers := s.finishers[n := f.(finishing := true)], pending := s.pending - {id})
      else t == s.(finishers := s.finishers[n := f.(at := f.at + 1)])
  }

  ghost predicate History(ss: seq<State>, steps: seq<Step>) {
    |ss| == |steps| + 1 && forall i :: 0 <= i < |steps| ==> Moves(ss[i], steps[i], ss[i + 1])
  }

  /** Neither is Stop called nor the connection made again. */
  ghost predicate Unaided(steps: seq<Step>) {
    forall n :: 0 <= n < |steps| ==> !steps[n].Sweep? && !steps[n].Launch?
  }

  /** What every step keeps. */
  lemma MoveKeeps(s: State, step: Step, t: State)
    requires Moves(s, step, t)
    ensures s.finished <= t.finished
    ensures s.dropped && !step.Recycle? ==> t.dropped && NoFailure(t.finished, |s.finished|)
    ensures Quiet(s) && !step.Sweep? && !step.Launch? ==> Quiet(t) && s.pending <= t.pending && t.finished == s.finished
    ensures NoSweep(s.finishers) && !step.Sweep? ==> NoSweep(t.finishers) && OwnResults(t.finished, |s.finished|)
  {
  }

  lemma {:induction false} HistoryKeeps(ss: seq<State>, steps: seq<Step>, k: nat)
    requires History(ss, steps) && k <= |steps|
    ensures ss[0].finished <= ss[k].finished
    ensures ss[0].dropped && Recycle !in steps ==> ss[k].dropped && NoFailure(ss[k].finished, |ss[0].finished|)
    ensures Quiet(ss[0]) && Unaided(steps) ==>
              Quiet(ss[k]) && ss[0].pending <= ss[k].pending && ss[k].finished == ss[0].finished
    ensures NoSweep(ss[0].finishers) && (forall i :: 0 <= i < |steps| ==> !steps[i].Sweep?) ==>
              NoSweep(ss[k].finishers) && OwnResults(ss[k].finished, |ss[0].finished|)
  {
    if k > 0 {
      HistoryKeeps(ss, steps, k - 1);
      MoveKeeps(ss[k - 1], steps[k - 1], ss[k]);
    }
  }

  predicate NoSweep(fs: seq<Finisher>) {
    forall n :: 0 <= n < |fs| ==> !fs[n].sweep
  }

  /** From the k-th on, every request was finished with a result of its own. */
  ghost predicate OwnResults(finished: seq<(nat, Verdict)>, k: nat) {
    forall i :: k <= i < |finished| ==> finished[i].1.Outcome?
  }

  /** From the k-th on, no request was finished with a failure for good. */
  ghost predicate NoFailure(finished: seq<(nat, Verdict)>, k: nat) {
    forall i :: k <= i < |finished| ==> !finished[i].1.Failure?
  }

  /** The elements of a set, in some order. */
  method Listing(s: set<nat>) returns (keys: seq<nat>)
    ensures forall id :: id in keys <==> id in s
  {
    keys := [];
    var rest := s;
    while rest != {}
      invariant rest <= s && forall id :: id in keys <==> id in s - rest
      decreases rest
    {
      var id :| id in rest;
      keys, rest := keys + [id], rest - {id};
    }
  }

  /** Execute lets a call in, Stop joins the I/O thread and cancels what is pending, and only then the
      call is inserted: it is not finished, whatever happens, unless Stop is called again or the
      connection made again.
   */
  method Orphaned(steps: seq<Step>) returns (c: HttpConnection)
    requires Unaided(steps)
    ensures c.Valid() && Quiet(c.Now()) && 0 in c.pending && c.finished == []
  {
    c := new HttpConnection();
    c.Start();
    c.Connected();
    var _ := c.Admit();
    c.Unready(false);
    c.Halt();
    c.StartSweep([], false);
    var _ := c.Insert();
    var _ := c.Run(steps);
  }

  /** If the connection is reset while a sweep is under way, as another thread's Stop may be, a request
      that was pending when the connection was dropped fails for good.
   */
  method NotRetried() returns (c: HttpConnection)
    ensures c.Valid() && c.pending == {} && c.finished == [(0, Failure)]
  {
    c := new HttpConnection();
    c.Start();
    c.Connected();
    var _ := c.Admit();
    var _ := c.Insert();
    c.Unready(true);
    c.Halt();
    c.StartSweep([0], false);
    c.Reset();
    var _ := c.Erase(0);
    c.Finish(0);
  }
}
