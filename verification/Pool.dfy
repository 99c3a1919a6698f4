/** Any number of buffers that share one freelist, each with a user. What is done to one of them changes no
    other, and no block is ever lost or held twice.
 */
module Pools {
  import opened Blocks
  import opened Buffers
  import opened Clients
  import opened Common
  import opened Freelists

  /** Buffers are named by the order of their creation. */
  datatype Step = Create | Destroy(i: nat) | Do(i: nat, op: Op)

  /** How many buffers there have been, and those there are. */
  datatype State = State(made: nat, queues: map<nat, Queue>)

  predicate Acts(s: State, step: Step) {
    step.Do? && step.i in s.queues && Allowed(s.queues[step.i], step.op)
  }

  /** What a step does. An operation that is allowed has its effect on its own buffer and none on any
      other; one that is not allowed is not done.
   */
  ghost predicate Moves(s: State, step: Step, t: State) {
    match step
    case Create => t == State(s.made + 1, s.queues[s.made := NOTHING])
    case Destroy(i) => t == s.(queues := s.queues - {i})
    case Do(i, op) =>
      if !Acts(s, step) then t == s
      else
        && t.made == s.made && t.queues.Keys == s.queues.Keys && Leaves(s.queues[i], op, t.queues[i])
        && forall j :: j in s.queues && j != i ==> t.queues[j] == s.queues[j]
  }

  function Output(s: State, step: Step): (out: seq<Byte>) {
    if Acts(s, step) then Gives(s.queues[step.i], step.op) else []
  }

  ghost predicate History(ss: seq<State>, steps: seq<Step>, outs: seq<seq<Byte>>) {
    && |ss| == |steps| + 1 && |outs| == |steps|
    && forall k :: 0 <= k < |steps| ==> Moves(ss[k], steps[k], ss[k + 1]) && outs[k] == Output(ss[k], steps[k])
  }

  lemma HistoryMore(ss: seq<State>, steps: seq<Step>, outs: seq<seq<Byte>>, step: Step, out: seq<Byte>, t: State)
    requires History(ss, steps, outs) && Moves(ss[|steps|], step, t) && out == Output(ss[|steps|], step)
    ensures History(ss + [t], steps + [step], outs + [out])
  {
  }

  /** Every client has a number and a buffer of its own, and there are no other buffers. */
  ghost predicate Enrolled(made: seq<Client>, clients: set<Client>, buffers: set<Buffer>) {
    forall key {:trigger Look(key)} :: Look(key) ==>
      && (forall i, j :: 0 <= i < j < |made| ==> made[i] != made[j])
      && (forall c :: c in clients ==> c in made && c.buffer in buffers)
      && (forall c, d :: c in clients && d in clients && c.buffer == d.buffer ==> c == d)
      && (forall e :: e in buffers ==> exists c :: c in clients && c.buffer == e)
  }

  lemma EnrolledMore(made: seq<Client>, clients: set<Client>, buffers: set<Buffer>, c: Client)
    requires Enrolled(made, clients, buffers) && c !in made && c !in clients && c.buffer !in buffers
    ensures Enrolled(made + [c], clients + {c}, buffers + {c.buffer})
  {
    assert Look(0);
    var cs := clients + {c};
    forall e | e in buffers + {c.buffer}
      ensures exists d :: d in cs && d.buffer == e
    {
      if e == c.buffer {
        assert c in cs;
      } else {
        var d :| d in clients && d.buffer == e;
        assert d in cs;
      }
    }
  }

  lemma EnrolledLess(made: seq<Client>, clients: set<Client>, buffers: set<Buffer>, c: Client)
    requires Enrolled(made, clients, buffers) && c in clients
    ensures Enrolled(made, clients - {c}, buffers - {c.buffer})
  {
    assert Look(0);
    var cs := clients - {c};
    forall e | e in buffers - {c.buffer}
      ensures exists d :: d in cs && d.buffer == e
    {
      var d :| d in clients && d.buffer == e;
      assert d in cs;
    }
  }

  class Pool {
    const list: Freelist
    var made: seq<Client>
    var clients: set<Client>  // those whose buffers have not been destroyed
    ghost var buffers: set<Buffer>

    /** The block is in the list that is its home. */
    ghost predicate Held(b: Block)
      reads this`buffers, list, buffers, b`home
    {
      if b.home == list then b in list.pool
      else b.home is Buffer && var c := b.home as Buffer; c in buffers && b in c.repr
    }

    ghost predicate Member(c: Client)
      reads this`buffers, c, c.buffer, c.buffer.repr, list
    {
      c.Valid() && c.buffer in buffers && c.buffer.freelist == list && c.buffer.repr <= list.minted
    }

    ghost predicate Valid()
      reads this, list, clients, buffers, list.minted
    {
      forall key {:trigger Open(this, key)} :: Open(this, key) ==>
        && list.capacity > 0 && list.pool <= list.minted && list.Valid()
        && (forall b :: b in list.minted ==> Held(b))
        && (forall c :: c in clients ==> c.buffer in buffers && c.buffer.repr <= list.minted && Member(c))
        && Enrolled(made, clients, buffers)
    }

    lemma Numbers(i: nat)
      requires Valid() && i < |made|
      ensures forall j :: 0 <= j < |made| && j != i ==> made[j] != made[i]
    {
      assert Open(this, 0) && Look(0);
    }

    lemma Alone(c: Client)
      requires Valid() && c in clients
      ensures forall d :: d in clients && d != c ==> d.buffer != c.buffer
    {
      assert Open(this, 0) && Look(0);
    }

    lemma IsMember(c: Client)
      requires Valid() && c in clients
      ensures Member(c) && list.Valid() && list.pool <= list.minted
    {
      assert Open(this, 0);
    }

    constructor (capacity: nat)
      requires capacity > 0
      ensures Valid() && Now() == State(0, map[]) && list.minted == {} && list.capacity == capacity
    {
      list := new Freelist(capacity);
      made, clients, buffers := [], {}, {};
    }

    ghost function Now(): (s: State)
      reads this`made, this`clients, made`queue
    {
      State(|made|, map i: nat | i < |made| && made[i] in clients :: made[i].queue)
    }

    method Create() returns (c: Client)
      requires Valid()
      modifies this`made, this`clients, this`buffers
      ensures Valid() && fresh(c) && fresh(c.buffer) && made == old(made) + [c] && clients == old(clients) + {c}
      ensures buffers == old(buffers) + {c.buffer} && Moves(old(Now()), Step.Create, Now())
    {
      assert list.capacity > 0 by {
        assert Open(this, 0);
      }
      c := new Client(list);
      Enroll(c);
      assert Now().queues == old(Now()).queues[|old(made)| := NOTHING];
    }

    method Enroll(c: Client)
      requires Valid() && c !in made && c !in clients && c.buffer !in buffers
      requires c.Valid() && c.buffer.freelist == list && c.buffer.repr == {}
      modifies this`made, this`clients, this`buffers
      ensures Valid() && made == old(made) + [c] && clients == old(clients) + {c}
      ensures buffers == old(buffers) + {c.buffer}
    {
      assert Open(this, 0);
      EnrolledMore(made, clients, buffers, c);
      made, clients, buffers := made + [c], clients + {c}, buffers + {c.buffer};
      forall d | d in clients && d != c
        ensures Member(d)
      {
        assert old(Member(d));
      }
      forall b | b in list.minted
        ensures Held(b)
      {
        assert old(Held(b));
      }
    }

    /** The blocks of other buffers are neither this one's nor waiting in the freelist. */
    lemma AllApart(c: Client)
      requires Valid() && c in clients
      ensures forall d :: d in clients && d != c ==> d.buffer.repr !! c.buffer.repr && d.buffer.repr !! list.pool
      ensures c.buffer.repr !! list.pool
    {
      assert Open(this, 0);
      assert Member(c);
      Alone(c);
      c.buffer.Homes();
      list.Homes();
      forall d | d in clients && d != c
        ensures d.buffer.repr !! c.buffer.repr && d.buffer.repr !! list.pool
      {
        assert Member(d);
        d.buffer.Homes();
      }
    }

    /** An operation on one buffer has its effect there. All others keep their data, what they have
        reserved and shown, and the numbers of their blocks.
     */
    method Act(c: Client, op: Op) returns (out: seq<Byte>)
      requires Valid() && c in clients && Allowed(c.queue, op)
      modifies c, c.buffer, c.buffer.repr, list, list.pool
      ensures Valid() && old(list.minted) <= list.minted && fresh(list.minted - old(list.minted))
      ensures Leaves(old(c.queue), op, c.queue) && out == Gives(old(c.queue), op)
      ensures forall d :: d in clients && d != c ==>
                && d.queue == old(d.queue) && d.buffer.image == old(d.buffer.image)
                && d.buffer.serials == old(d.buffer.serials)
    {
      assert Open(this, 0);
      assert Member(c);
      ghost var h := c.buffer.Holds();
      AllApart(c);
      Alone(c);
      out := c.Perform(op);
      forall d | d in clients && d != c
        ensures Member(d)
      {
        assert old(Member(d));
      }
      c.buffer.Homes();
      list.Homes();
      forall b | b in list.minted
        ensures Held(b) && (b !in h.minted ==> fresh(b))
      {
        assert b in h.minted ==> old(Held(b));
        assert Has(c.buffer.Holds(), b) <==> Has(h, b) || b !in h.minted;
      }
    }

    /** The destructor of a buffer. */
    method Destroy(c: Client)
      requires Valid() && c in clients
      modifies this`clients, this`buffers, c.buffer.repr, list
      ensures Valid() && clients == old(clients) - {c} && buffers == old(buffers) - {c.buffer}
      ensures list.Valid() && list.pool == old(list.pool + c.buffer.repr)
      ensures list.minted == old(list.minted)
      ensures forall d :: d in clients ==> d.queue == old(d.queue) && d.buffer.serials == old(d.buffer.serials)
    {
      assert Open(this, 0);
      assert Member(c);
      Alone(c);
      EnrolledLess(made, clients, buffers, c);
      Release(c);
      clients, buffers := clients - {c}, buffers - {c.buffer};
      list.Homes();
      forall b | b in list.minted
        ensures Held(b)
      {
        assert old(Held(b));
      }
    }

    /** The blocks of a buffer go back, and all other buffers keep theirs. */
    method Release(c: Client)
      requires Valid() && c in clients
      modifies c.buffer.repr, list
      ensures list.Valid() && list.pool == old(list.pool + c.buffer.repr) && list.minted == old(list.minted)
      ensures forall d :: d in clients && d != c ==> Member(d)
    {
      assert Open(this, 0);
      assert Member(c);
      AllApart(c);
      Alone(c);
      c.buffer.Destroy();
      assert list.minted == old(list.minted);
      forall d | d in clients && d != c
        ensures Member(d)
      {
        assert old(Member(d));
      }
    }

    /** A step of a run, if it can be taken. */
    method Take(step: Step) returns (out: seq<Byte>)
      requires Valid()
      modifies this`made, this`clients, this`buffers, clients, buffers, list, list.minted
      ensures Valid() && Moves(old(Now()), step, Now()) && out == Output(old(Now()), step)
      ensures old(list.minted) <= list.minted && fresh(list.minted - old(list.minted))
      ensures fresh(clients - old(clients)) && fresh(buffers - old(buffers))
    {
      out := [];
      match step {
        case Create => var _ := Create();
        case Destroy(i) =>
          if i < |made| && made[i] in clients {
            DestroyAt(i);
          } else {
            assert Now().queues - {i} == Now().queues;
          }
        case Do(i, op) =>
          if i < |made| && made[i] in clients {
            out := DoAt(i, op);
          }
      }
    }

    method DestroyAt(i: nat)
      requires Valid() && i < |made| && made[i] in clients
      modifies this`clients, this`buffers, buffers, list, list.minted
      ensures Valid() && Moves(old(Now()), Step.Destroy(i), Now()) && clients <= old(clients) && buffers <= old(buffers)
      ensures list.minted == old(list.minted)
    {
      IsMember(made[i]);
      Numbers(i);
      Destroy(made[i]);
      assert Now().queues == old(Now()).queues - {i};
    }

    method DoAt(i: nat, op: Op) returns (out: seq<Byte>)
      requires Valid() && i < |made| && made[i] in clients
      modifies clients, buffers, list, list.minted
      ensures Valid() && Moves(old(Now()), Do(i, op), Now()) && out == Output(old(Now()), Do(i, op))
      ensures old(list.minted) <= list.minted && fresh(list.minted - old(list.minted))
    {
      out := [];
      IsMember(made[i]);
      var b := made[i].IsAllowed(op);
      if b {
        out := ActAt(i, op);
      }
    }

    method ActAt(i: nat, op: Op) returns (out: seq<Byte>)
      requires Valid() && i < |made| && made[i] in clients && Allowed(made[i].queue, op)
      modifies clients, buffers, list, list.minted
      ensures Valid() && Moves(old(Now()), Do(i, op), Now()) && out == Gives(old(made[i].queue), op)
      ensures old(list.minted) <= list.minted && fresh(list.minted - old(list.minted))
    {
      IsMember(made[i]);
      Numbers(i);
      out := Act(made[i], op);
    }

    /** Any operations on any buffers, with buffers created and destroyed in between. */
    method Run(steps: seq<Step>) returns (outs: seq<seq<Byte>>, ghost ss: seq<State>)
      requires Valid()
      modifies this`made, this`clients, this`buffers, clients, buffers, list, list.minted
      ensures Valid() && old(list.minted) <= list.minted
      ensures History(ss, steps, outs) && ss[0] == old(Now()) && ss[|steps|] == Now()
    {
      outs, ss := [], [Now()];
      for k := 0 to |steps|
        invariant Valid() && old(list.minted) <= list.minted && fresh(list.minted - old(list.minted))
        invariant fresh(clients - old(clients)) && fresh(buffers - old(buffers))
        invariant History(ss, steps[..k], outs) && ss[0] == old(Now()) && ss[k] == Now()
      {
        var out := Take(steps[k]);
        HistoryMore(ss, steps[..k], outs, steps[k], out, Now());
        assert steps[..k + 1] == steps[..k] + [steps[k]];
        outs, ss := outs + [out], ss + [Now()];
      }
      assert steps[..|steps|] == steps;
    }

    /** Destroying all buffers returns every block ever allocated. */
    method DestroyAll()
      requires Valid()
      modifies this`clients, this`buffers, list, list.minted
      ensures Valid() && clients == {} && list.minted == old(list.minted) && list.pool == list.minted && list.Valid()
      ensures list.Size() == |list.minted|
    {
      while clients != {}
        invariant Valid() && list.minted == old(list.minted)
        decreases clients
      {
        var c :| c in clients;
        IsMember(c);
        Destroy(c);
      }
      assert Open(this, 0) && Look(0);
      list.Homes();
      assert forall b :: b in list.minted ==> Held(b);
      assert list.pool == list.minted;
    }

    /** Every block ever allocated waits in the freelist or is in the list of exactly one buffer. */
    lemma OneList(b: Block, c: Client, d: Client)
      requires Valid() && b in list.minted && c in clients && d in clients
      ensures b in list.pool <==> forall e :: e in clients ==> b !in e.buffer.repr
      ensures b in c.buffer.repr && b in d.buffer.repr ==> c == d
    {
      assert Open(this, 0) && Look(0);
      assert Held(b) && Member(c) && Member(d);
      AllApart(c);
      AllApart(d);
      if b in list.pool {
        forall e | e in clients
          ensures b !in e.buffer.repr
        {
          AllApart(e);
        }
      }
    }
  }
}
