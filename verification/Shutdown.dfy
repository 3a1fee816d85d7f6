/**
  How a room stops while others are sending to it (`send`, `handle` and `stop` of
  internal/room/room.go).  Every method is one atomic step of a sender or of the room; the
  steps may be interleaved in any way.
*/
module Shutdown {
  import opened Ids

  type Conn = nat

  datatype Command = Join(conn: Conn) | Leave(conn: Conn) | Frame(conn: Conn) | Evict

  /** A sender waits for the lock, holds it while it waits for space in the mailbox, or is back. */
  datatype Sender = WantsLock(cmd: Command) | HoldsLock(cmd: Command) | Accepted(cmd: Command) | Refused(cmd: Command)

  /** The room runs; or it has closed its connections; or has closed `done` as well; or has set
      `closed` and drains the mailbox; or is gone. */
  datatype Phase = Running | Leaving | Done | Draining | Stopped

  class Room {
    const capacity: nat
    var phase: Phase
    var mailbox: seq<Command>
    var conns: set<Conn>
    var lock: Option<nat>
    var senders: map<nat, Sender>
    ghost var joined: multiset<Conn>
    ghost var left: multiset<Conn>
    ghost var shut: multiset<Conn>
    ghost var again: multiset<Conn>

    /** Only senders hold the lock across steps, and none does once `closed` is set.  Nobody is
        connected any more once the room is leaving. */
    ghost predicate Valid()
      reads this
    {
      && |mailbox| <= capacity
      && (forall i :: lock == Some(i) <==> i in senders && senders[i].HoldsLock?)
      && (phase == Draining || phase == Stopped ==> lock == None)
      && (phase != Running ==> conns == {})
      && (phase == Stopped ==> mailbox == [])
      && Balanced()
    }

    /** Every accepted Join is accounted for once: it is in the mailbox, or its connection is
        connected, has left or has been closed, or it came from a connection that was connected
        already. */
    ghost predicate Balanced()
      reads this`senders, this`joined, this`mailbox, this`conns, this`left, this`shut, this`again
    {
      && (forall c :: |AcceptedJoins(senders, c)| == joined[c])
      && Even(joined, mailbox, conns, left, shut, again)
    }

    constructor (capacity: nat)
      ensures Valid() && phase == Running && mailbox == [] && senders == map[] && this.capacity == capacity
      ensures joined == left == shut == again == multiset{}
    {
      this.capacity := capacity;
      phase, mailbox, conns, lock, senders := Running, [], {}, None, map[];
      joined, left, shut, again := multiset{}, multiset{}, multiset{}, multiset{};
    }

    /** The handover is total: once `stop` has returned, for every accepted Join its connection has
        left or been closed, once each, but for Joins of a connection that was connected already. */
    lemma HandoverIsTotal(c: Conn)
      requires Valid() && phase == Stopped
      ensures |AcceptedJoins(senders, c)| == left[c] + shut[c] + again[c]
      ensures AcceptedJoins(senders, c) != {} ==> c in left || c in shut
    {
      hide AcceptedJoins;
      assert Joins(mailbox)[c] == 0;
    }

    // -------------------------------------------------------------- senders

    /** `send` is called. */
    method Call(i: nat, cmd: Command)
      requires Valid() && i !in senders
      modifies this`senders
      ensures Valid() && senders == old(senders)[i := WantsLock(cmd)]
    {
      hide AcceptedJoins, Even, Joins;
      NotAccepted(senders, i, WantsLock(cmd));
      senders := senders[i := WantsLock(cmd)];
    }

    /** The sender gets the lock; a closed room refuses it at once. */
    method Enter(i: nat)
      requires Valid() && i in senders && senders[i].WantsLock? && lock == None
      modifies this`senders, this`lock
      ensures Valid() && i in senders
      ensures phase == Draining || phase == Stopped ==> senders[i] == Refused(old(senders)[i].cmd) && lock == None
      ensures phase != Draining && phase != Stopped ==> senders[i] == HoldsLock(old(senders)[i].cmd) && lock == Some(i)
      ensures senders == old(senders)[i := senders[i]]
    {
      hide AcceptedJoins, Even, Joins;
      NotAccepted(senders, i, Refused(senders[i].cmd));
      NotAccepted(senders, i, HoldsLock(senders[i].cmd));
      if phase == Draining || phase == Stopped {
        senders := senders[i := Refused(senders[i].cmd)];
      } else {
        lock, senders := Some(i), senders[i := HoldsLock(senders[i].cmd)];
      }
    }

    /** There is space in the mailbox. */
    method Put(i: nat)
      requires Valid() && i in senders && senders[i].HoldsLock? && |mailbox| < capacity
      modifies this`senders, this`lock, this`mailbox, this`joined
      ensures Valid() && lock == None && senders == old(senders)[i := Accepted(old(senders)[i].cmd)]
      ensures mailbox == old(mailbox) + [old(senders)[i].cmd] && joined == old(joined) + Joins([old(senders)[i].cmd])
    {
      hide AcceptedJoins, Even, Joins;
      var cmd := senders[i].cmd;
      EvenPut(joined, mailbox, conns, left, shut, again, cmd);
      NowAccepted(senders, i, cmd);
      mailbox, senders, lock, joined := mailbox + [cmd], senders[i := Accepted(cmd)], None, joined + Joins([cmd]);
    }

    /** The room has closed `done` while the sender was waiting for space. */
    method GiveUp(i: nat)
      requires Valid() && i in senders && senders[i].HoldsLock?
      requires phase == Done || phase == Draining || phase == Stopped
      modifies this`senders, this`lock
      ensures Valid() && lock == None && senders == old(senders)[i := Refused(old(senders)[i].cmd)]
    {
      hide AcceptedJoins, Even, Joins;
      NotAccepted(senders, i, Refused(senders[i].cmd));
      senders, lock := senders[i := Refused(senders[i].cmd)], None;
    }

    // -------------------------------------------------------------- the room

    /** `handle`: the next command.  A frame, and the retraction of what a leaving connection had
        announced, go out to the others; any of those that is `slow` is dropped.  A frame can get
        its own connection dropped too.  An eviction stops the room if nobody is connected. */
    method Handle(slow: set<Conn>) returns (evicted: bool)
      requires Valid() && phase == Running && mailbox != []
      modifies this`mailbox, this`conns, this`left, this`shut, this`again
      ensures Valid() && mailbox == old(mailbox)[1..]
      ensures match old(mailbox)[0]
              case Join(c) =>
                && !evicted && conns == old(conns) + {c} && left == old(left) && shut == old(shut)
                && again == old(again) + (if c in old(conns) then multiset{c} else multiset{})
              case Leave(c) =>
                if c in old(conns) then
                  && !evicted && conns == old(conns) - {c} - slow && again == old(again)
                  && left == old(left) + multiset{c} && shut == old(shut) + multiset((old(conns) - {c}) * slow)
                else
                  !evicted && conns == old(conns) && left == old(left) && shut == old(shut) && again == old(again)
              case Frame(c) =>
                if c in old(conns) then
                  && !evicted && conns == old(conns) - slow && again == old(again)
                  && left == old(left) && shut == old(shut) + multiset(old(conns) * slow)
                else
                  !evicted && conns == old(conns) && left == old(left) && shut == old(shut) && again == old(again)
              case Evict =>
                && evicted == (old(conns) == {})
                && conns == old(conns) && left == old(left) && shut == old(shut) && again == old(again)
    {
      hide Balanced;
      var cmd := mailbox[0];
      evicted := false;
      match cmd {
        case Join(c) => Admit();
        case Leave(c) => Retire(slow);
        case Frame(c) => Deliver(slow);
        case Evict =>
          Skip();
          evicted := conns == {};
      }
    }

    /** `join`. */
    method Admit()
      requires Balanced() && mailbox != [] && mailbox[0].Join?
      modifies this`mailbox, this`conns, this`again
      ensures Balanced() && mailbox == old(mailbox)[1..] && conns == old(conns) + {old(mailbox)[0].conn}
      ensures again == old(again) + (if old(mailbox)[0].conn in old(conns) then multiset{old(mailbox)[0].conn}
              else multiset{})
    {
      hide AcceptedJoins, Even, Joins;
      var c := mailbox[0].conn;
      EvenJoin(joined, mailbox, conns, left, shut, again);
      again := again + (if c in conns then multiset{c} else multiset{});
      mailbox, conns := mailbox[1..], conns + {c};
    }

    /** `leave`. */
    method Retire(slow: set<Conn>)
      requires Balanced() && mailbox != [] && mailbox[0].Leave?
      modifies this`mailbox, this`conns, this`left, this`shut
      ensures Balanced() && mailbox == old(mailbox)[1..]
      ensures var c := old(mailbox)[0].conn;
              if c in old(conns) then
                && conns == old(conns) - {c} - slow
                && left == old(left) + multiset{c} && shut == old(shut) + multiset((old(conns) - {c}) * slow)
              else
                conns == old(conns) && left == old(left) && shut == old(shut)
    {
      hide AcceptedJoins, Even, Joins;
      var c := mailbox[0].conn;
      Skip();
      if c in conns {
        EvenLeave(joined, mailbox, conns, left, shut, again, c);
        conns, left := conns - {c}, left + multiset{c};
        Drop(slow);
      }
    }

    /** `frame`. */
    method Deliver(slow: set<Conn>)
      requires Balanced() && mailbox != [] && mailbox[0].Frame?
      modifies this`mailbox, this`conns, this`shut
      ensures Balanced() && mailbox == old(mailbox)[1..]
      ensures if old(mailbox)[0].conn in old(conns) then
                conns == old(conns) - slow && shut == old(shut) + multiset(old(conns) * slow)
              else
                conns == old(conns) && shut == old(shut)
    {
      hide Balanced;
      var c := mailbox[0].conn;
      Skip();
      if c in conns {
        Drop(slow);
      }
    }

    method Skip()
      requires Balanced() && mailbox != [] && !mailbox[0].Join?
      modifies this`mailbox
      ensures Balanced() && mailbox == old(mailbox)[1..]
    {
      hide AcceptedJoins, Even, Joins;
      EvenTake(joined, mailbox, conns, left, shut, again);
      mailbox := mailbox[1..];
    }

    /** `drop`, of every connection that cannot keep up. */
    method Drop(slow: set<Conn>)
      requires Balanced()
      modifies this`conns, this`shut
      ensures Balanced() && conns == old(conns) - slow && shut == old(shut) + multiset(old(conns) * slow)
    {
      hide AcceptedJoins, Even, Joins;
      EvenDrop(joined, mailbox, conns, left, shut, again, slow);
      shut := shut + multiset(conns * slow);
      conns := conns - slow;
    }

    /** `stop` begins: every connection is closed. */
    method CloseConnections()
      requires Valid() && phase == Running
      modifies this`phase, this`conns, this`shut
      ensures Valid() && phase == Leaving && shut == old(shut) + multiset(old(conns)) && conns == {}
    {
      hide AcceptedJoins, Even, Joins;
      EvenDrop(joined, mailbox, conns, left, shut, again, conns);
      assert conns * conns == conns && conns - conns == {};
      shut, conns, phase := shut + multiset(conns), {}, Leaving;
    }

    method CloseDone()
      requires Valid() && phase == Leaving
      modifies this`phase
      ensures Valid() && phase == Done
    {
      hide Balanced;
      phase := Done;
    }

    /** The room takes the lock, sets `closed` and releases the lock. */
    method SetClosed()
      requires Valid() && phase == Done && lock == None
      modifies this`phase
      ensures Valid() && phase == Draining
    {
      hide Balanced;
      phase := Draining;
    }

    /** One command that was accepted and not handled: a joining connection is told. */
    method Drain()
      requires Valid() && phase == Draining && mailbox != []
      modifies this`mailbox, this`shut
      ensures Valid() && mailbox == old(mailbox)[1..]
      ensures shut == old(shut) + (if old(mailbox)[0].Join? then multiset{old(mailbox)[0].conn} else multiset{})
    {
      hide AcceptedJoins, Even, Joins;
      var cmd := mailbox[0];
      mailbox := mailbox[1..];
      if !cmd.Join? { EvenTake(joined, old(mailbox), conns, left, shut, again); }
      if cmd.Join? {
        EvenRefuse(joined, old(mailbox), conns, left, shut, again);
        shut := shut + multiset{cmd.conn};
      }
    }

    method DrainAll()
      requires Valid() && phase == Draining
      modifies this`mailbox, this`shut
      ensures Valid() && mailbox == [] && shut == old(shut) + Joins(old(mailbox))
    {
      hide Balanced;
      while mailbox != []
        invariant Valid() && shut + Joins(mailbox) == old(shut) + Joins(old(mailbox))
        decreases |mailbox|
      {
        Drain();
      }
    }

    /** `stop` returns. */
    method Return()
      requires Valid() && phase == Draining && mailbox == []
      modifies this`phase
      ensures Valid() && phase == Stopped
    {
      hide Balanced;
      phase := Stopped;
    }

    /** No deadlock on the lock: from wherever the stopping room is, and whoever holds the lock,
        there is a way to the end, on which no accepted command is taken back. */
    method Finish()
      requires Valid() && phase != Running
      modifies this
      ensures Valid() && phase == Stopped
      ensures forall i <- old(senders) :: i in senders && senders[i].cmd == old(senders)[i].cmd
      ensures forall i <- old(senders) | old(senders)[i].Accepted? :: senders[i] == old(senders)[i]
      ensures joined == old(joined) && left == old(left) && again == old(again)
      ensures shut == old(shut) + Joins(old(mailbox))
    {
      hide Balanced;
      if phase == Leaving {
        CloseDone();
      }
      if phase == Done {
        if lock.Some? {
          assert lock.value in senders && senders[lock.value].HoldsLock?;
          GiveUp(lock.value);
        }
        SetClosed();
      }
      if phase == Draining {
        DrainAll();
        Return();
      }
    }
  }

  /** The Joins of one connection that were accepted. */
  function AcceptedJoins(senders: map<nat, Sender>, c: Conn): set<nat> {
    set i | i in senders && senders[i] == Accepted(Join(c))
  }

  lemma NotAccepted(senders: map<nat, Sender>, i: nat, s: Sender)
    requires !s.Accepted? && (i in senders ==> !senders[i].Accepted?)
    ensures forall c :: AcceptedJoins(senders[i := s], c) == AcceptedJoins(senders, c)
  {
  }

  lemma NowAccepted(senders: map<nat, Sender>, i: nat, cmd: Command)
    requires i in senders && !senders[i].Accepted?
    ensures forall c :: |AcceptedJoins(senders[i := Accepted(cmd)], c)| == |AcceptedJoins(senders, c)| + Joins([cmd])[c]
  {
    forall c
      ensures |AcceptedJoins(senders[i := Accepted(cmd)], c)| == |AcceptedJoins(senders, c)| + Joins([cmd])[c]
    {
      var before, after := AcceptedJoins(senders, c), AcceptedJoins(senders[i := Accepted(cmd)], c);
      assert after == if cmd == Join(c) then before + {i} else before;
    }
  }

  /** The connections of the Joins in a mailbox. */
  function Joins(mailbox: seq<Command>): multiset<Conn> {
    if mailbox == [] then multiset{}
    else (if mailbox[0].Join? then multiset{mailbox[0].conn} else multiset{}) + Joins(mailbox[1..])
  }

  lemma {:induction false} JoinsAppend(mailbox: seq<Command>, cmd: Command)
    ensures Joins(mailbox + [cmd]) == Joins(mailbox) + Joins([cmd])
  {
    if mailbox == [] {
      assert mailbox + [cmd] == [cmd];
    } else {
      JoinsAppend(mailbox[1..], cmd);
      assert (mailbox + [cmd])[1..] == mailbox[1..] + [cmd];
    }
  }

  // ---------------------------------------------------------------- the books

  /** Every accepted Join is accounted for once. */
  ghost predicate Even(joined: multiset<Conn>, mailbox: seq<Command>, conns: set<Conn>, left: multiset<Conn>,
                       shut: multiset<Conn>, again: multiset<Conn>) {
    && (forall c :: joined[c] == Joins(mailbox)[c] + (if c in conns then 1 else 0) + left[c] + shut[c] + again[c])
    && (forall c <- again :: c in conns || c in left || c in shut)
  }

  lemma EvenPut(joined: multiset<Conn>, mailbox: seq<Command>, conns: set<Conn>, left: multiset<Conn>,
                shut: multiset<Conn>, again: multiset<Conn>, cmd: Command)
    requires Even(joined, mailbox, conns, left, shut, again)
    ensures Even(joined + Joins([cmd]), mailbox + [cmd], conns, left, shut, again)
  {
    hide Joins;
    JoinsAppend(mailbox, cmd);
  }

  lemma EvenTake(joined: multiset<Conn>, mailbox: seq<Command>, conns: set<Conn>, left: multiset<Conn>,
                 shut: multiset<Conn>, again: multiset<Conn>)
    requires Even(joined, mailbox, conns, left, shut, again) && mailbox != [] && !mailbox[0].Join?
    ensures Even(joined, mailbox[1..], conns, left, shut, again)
  {
  }

  lemma EvenJoin(joined: multiset<Conn>, mailbox: seq<Command>, conns: set<Conn>, left: multiset<Conn>,
                 shut: multiset<Conn>, again: multiset<Conn>)
    requires Even(joined, mailbox, conns, left, shut, again) && mailbox != [] && mailbox[0].Join?
    ensures var c := mailbox[0].conn;
            Even(joined, mailbox[1..], conns + {c}, left, shut,
              again + (if c in conns then multiset{c} else multiset{}))
  {
  }

  lemma EvenRefuse(joined: multiset<Conn>, mailbox: seq<Command>, conns: set<Conn>, left: multiset<Conn>,
                   shut: multiset<Conn>, again: multiset<Conn>)
    requires Even(joined, mailbox, conns, left, shut, again) && mailbox != [] && mailbox[0].Join?
    ensures Even(joined, mailbox[1..], conns, left, shut + multiset{mailbox[0].conn}, again)
  {
  }

  lemma EvenLeave(joined: multiset<Conn>, mailbox: seq<Command>, conns: set<Conn>, left: multiset<Conn>,
                  shut: multiset<Conn>, again: multiset<Conn>, c: Conn)
    requires Even(joined, mailbox, conns, left, shut, again) && c in conns
    ensures Even(joined, mailbox, conns - {c}, left + multiset{c}, shut, again)
  {
    hide Joins;
  }

  lemma EvenDrop(joined: multiset<Conn>, mailbox: seq<Command>, conns: set<Conn>, left: multiset<Conn>,
                 shut: multiset<Conn>, again: multiset<Conn>, slow: set<Conn>)
    requires Even(joined, mailbox, conns, left, shut, again)
    ensures Even(joined, mailbox, conns - slow, left, shut + multiset(conns * slow), again)
  {
    hide Joins;
  }
}
