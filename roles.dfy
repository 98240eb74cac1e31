/** The two-thread doubler of example_concurrent.cc and test.cc: `connect` pairs a
    channel at `Protocol` with one at its dual over one mailbox, `t1` sends the
    round number and reads back the answer, `t2` reads a number and sends back
    its double, five rounds each.

    Two views. `RunDoubler` drives the actual `Chan` and `Medium` objects of the
    other modules through one schedule. The `World` state machine covers every
    schedule: each role is a program counter over its loop body, a step is enabled
    exactly when the handle offers the operation and the mailbox would not block,
    and the scheduler is free to pick any enabled role. */
module Roles {
  import opened SessionTypes
  import opened TypeLists
  import opened ConcurrentMedium
  import opened Channel

  /** The identities of the two threads `connect` starts. */
  const T1: ThreadId := 1
  const T2: ThreadId := 2

  /** The loop bound of both roles. */
  const Rounds: nat := 5

  /** `Protocol = Rec<Send<int, Recv<int, Var<Z>>>>`, its loop body, and their duals. */
  const Body: Proto := Send(IntType, Recv(IntType, Var(0)))
  const Protocol: Proto := Rec(Body)
  const PeerBody: Proto := Recv(IntType, Send(IntType, Var(0)))
  const Peer: Proto := Rec(PeerBody)

  function IntValue(x: int): Value {
    Value(IntType, x)
  }

  /** The peer protocol is the dual, both are closed, and the mailbox of either
      end stores exactly `int`: the walk stops at `Var` and never adds `Z`. */
  lemma ProtocolFacts()
    ensures Dual(Protocol) == Peer && Dual(Body) == PeerBody
    ensures WellFormed(Handle(Protocol, [])) && WellFormed(Handle(Peer, []))
    ensures Walkable(Protocol) && ProtocolTypes(Protocol) == [IntType]
    ensures Walkable(Peer) && ProtocolTypes(Peer) == [IntType]
  {
    assert ProtocolTypesImpl([], Protocol) == [IntType, IntType];
    assert Unique([], [IntType, IntType]) == Unique([IntType], [IntType]);
    ProtocolTypesOfDual(Protocol);
  }

  /** `connect<P>(f, g, chan)`: one handle at `P` and one at its dual, both with the
      default (empty) environment, both reading and writing the same medium. The
      two threads themselves are not modelled. Both handle types need a `Chan`
      class, so `P` is neither a choice nor the peer of one, nor a bare `Var`. */
  method Connect(p: Proto, m: Medium) returns (c1: Chan, c2: Chan)
    requires HasChan(Handle(p, [])) && HasChan(Handle(Dual(p), []))
    ensures fresh(c1) && fresh(c2) && !c1.used && !c2.used
    ensures c1.Current() == Handle(p, []) && c2.Current() == Handle(Dual(p), [])
    ensures c2.Current() == DualHandle(c1.Current())
    ensures c1.input == m && c1.output == m && c2.input == m && c2.output == m
  {
    c1 := new Chan(p, [], m, m);
    c2 := new Chan(Dual(p), [], m, m);
    assert DualHandle(c1.Current()).env == [];
  }

  /** The operations of one round of `t1`, and of `t2`. */
  const LeaderRound: seq<Op> := [SendOp, RecvOp, RetOp, EnterOp]
  const ReplierRound: seq<Op> := [RecvOp, SendOp, RetOp, EnterOp]

  function Repeat(ops: seq<Op>, n: nat): (r: seq<Op>)
    ensures |r| == n * |ops|
    ensures forall i :: 0 <= i < |r| ==> r[i] == ops[i % |ops|]
  {
    if n == 0 then []
    else
      var r := Repeat(ops, n - 1) + ops;
      assert forall i :: (n - 1) * |ops| <= i < |r| ==> i % |ops| == i - (n - 1) * |ops| by {
        forall i | (n - 1) * |ops| <= i < |r| {
          ModOfOffset(i, n - 1, |ops|);
        }
      }
      r
  }

  /** An index `k` whole periods past `j < m` has remainder `j`. */
  lemma ModOfOffset(i: int, k: nat, m: nat)
    requires k * m <= i < k * m + m
    ensures i % m == i - k * m
  {
    var q := i / m;
    assert i == m * q + i % m;
    if q > k {
      assert m * q >= m * (k + 1) by { MulMono(m, k + 1, q); }
      assert false;
    } else if q < k {
      assert m * (q + 1) <= m * k by { MulMono(m, q + 1, k); }
      assert false;
    }
  }

  lemma MulMono(m: nat, a: int, b: int)
    requires a <= b
    ensures m * a <= m * b
  {
    assert m * b - m * a == m * (b - a);
  }

  /** `t1`'s and `t2`'s whole traces: `enter`, then their round `n` times. */
  function LeaderTrace(n: nat): seq<Op> {
    [EnterOp] + Repeat(LeaderRound, n)
  }

  function ReplierTrace(n: nat): seq<Op> {
    [EnterOp] + Repeat(ReplierRound, n)
  }

  /** One round of each role leads from the loop body back to it. */
  lemma RoundAccepted()
    ensures Run(Handle(Body, [Protocol]), LeaderRound) == Some(Handle(Body, [Protocol]))
    ensures Run(Handle(PeerBody, [Peer]), ReplierRound) == Some(Handle(PeerBody, [Peer]))
  {
    var a0, a3 := Handle(Body, [Protocol]), Handle(Protocol, []);
    var a1, a2 := Handle(Recv(IntType, Var(0)), [Protocol]), Handle(Var(0), [Protocol]);
    assert [Protocol][1..] == [];
    assert Run(a3, [EnterOp]) == Some(a0) by { assert [EnterOp][1..] == [] && [Protocol] + [] == [Protocol]; }
    assert Run(a2, [RetOp, EnterOp]) == Some(a0) by { assert [RetOp, EnterOp][1..] == [EnterOp]; }
    assert Run(a1, [RecvOp, RetOp, EnterOp]) == Some(a0) by {
      assert [RecvOp, RetOp, EnterOp][1..] == [RetOp, EnterOp];
    }
    assert LeaderRound[1..] == [RecvOp, RetOp, EnterOp];
    var b0, b3 := Handle(PeerBody, [Peer]), Handle(Peer, []);
    var b1, b2 := Handle(Send(IntType, Var(0)), [Peer]), Handle(Var(0), [Peer]);
    assert [Peer][1..] == [];
    assert Run(b3, [EnterOp]) == Some(b0) by { assert [EnterOp][1..] == [] && [Peer] + [] == [Peer]; }
    assert Run(b2, [RetOp, EnterOp]) == Some(b0) by { assert [RetOp, EnterOp][1..] == [EnterOp]; }
    assert Run(b1, [SendOp, RetOp, EnterOp]) == Some(b0) by {
      assert [SendOp, RetOp, EnterOp][1..] == [RetOp, EnterOp];
    }
    assert ReplierRound[1..] == [SendOp, RetOp, EnterOp];
  }

  /** A round that leads from `h` back to `h` can be repeated any number of times. */
  lemma {:induction false} RoundsAccepted(h: Handle, round: seq<Op>, n: nat)
    requires Run(h, round) == Some(h)
    ensures Run(h, Repeat(round, n)) == Some(h)
  {
    if n > 0 {
      RoundsAccepted(h, round, n - 1);
      RunAppend(h, Repeat(round, n - 1), round);
    }
  }

  /** Whatever the number of rounds, both traces are accepted by the channel rules
      and end in the loop body under one enclosing loop; neither reaches `Z`. */
  lemma TracesAccepted(n: nat)
    ensures Run(Handle(Protocol, []), LeaderTrace(n)) == Some(Handle(Body, [Protocol]))
    ensures Run(Handle(Peer, []), ReplierTrace(n)) == Some(Handle(PeerBody, [Peer]))
  {
    RoundAccepted();
    RoundsAccepted(Handle(Body, [Protocol]), LeaderRound, n);
    RoundsAccepted(Handle(PeerBody, [Peer]), ReplierRound, n);
    HandleOffersOp(true, Start);
    HandleOffersOp(false, Start);
    assert [EnterOp][1..] == [];
    RunAppend(Handle(Protocol, []), [EnterOp], Repeat(LeaderRound, n));
    RunAppend(Handle(Peer, []), [EnterOp], Repeat(ReplierRound, n));
  }

  /** The `e`-th mailbox event of the doubler: in round `q`, T1 puts `q`, T2 takes
      it, T2 puts `2q`, T1 takes that. */
  function EventAt(e: nat): Event {
    var q := e / 4;
    if e % 4 == 0 then Wrote(T1, IntValue(q))
    else if e % 4 == 1 then Took(T2, IntValue(q))
    else if e % 4 == 2 then Wrote(T2, IntValue(2 * q))
    else Took(T1, IntValue(2 * q))
  }

  function DoublerLog(n: nat): (h: seq<Event>)
    ensures |h| == n && forall e :: 0 <= e < n ==> h[e] == EventAt(e)
  {
    seq(n, e requires 0 <= e => EventAt(e))
  }

  lemma DoublerLogSnoc(n: nat)
    ensures DoublerLog(n + 1) == DoublerLog(n) + [EventAt(n)]
  {
  }

  /** Event `i` is what the alternation expects at position `i`. */
  lemma EventAtAlternates(i: nat)
    ensures i % 2 == 0 ==> EventAt(i).Wrote?
    ensures i % 2 == 1 ==>
      var e, p := EventAt(i), EventAt(i - 1);
      e.Took? && p.Wrote? && e.value == p.value && e.reader != p.writer
  {
    var q, r := i / 4, i % 4;
    assert i == 4 * q + r;
    if r == 1 || r == 3 {
      assert (i - 1) / 4 == q && (i - 1) % 4 == r - 1;
    }
  }

  /** Every prefix of the doubler's history alternates as the mailbox demands. */
  lemma {:induction false} DoublerLogAlternates(n: nat)
    ensures Alternates(DoublerLog(n))
  {
    if n == 0 {
      assert DoublerLog(0) == [];
    } else {
      DoublerLogAlternates(n - 1);
      DoublerLogSnoc(n - 1);
      EventAtAlternates(n - 1);
      var h := DoublerLog(n - 1);
      if (n - 1) % 2 == 1 {
        assert h[|h| - 1] == EventAt(n - 2);
      }
      AlternatesSnoc(h, EventAt(n - 1));
    }
  }

  /** The writers alternate T1, T2, T1, ...: put `k` is by T1 exactly when `k` is even. */
  lemma DoublerLogWriters(n: nat, k: nat)
    requires 2 * k < n
    ensures DoublerLog(n)[2 * k].Wrote?
    ensures DoublerLog(n)[2 * k].writer == (if k % 2 == 0 then T1 else T2)
  {
    assert (2 * k) % 4 == 2 * (k % 2);
  }

  /** The full run: twenty events, ten puts and ten takes, and every value written is read. */
  lemma DoublerLogFacts()
    ensures Alternates(DoublerLog(4 * Rounds))
    ensures |Written(DoublerLog(4 * Rounds))| == |Read(DoublerLog(4 * Rounds))| == 2 * Rounds
    ensures Read(DoublerLog(4 * Rounds)) == Written(DoublerLog(4 * Rounds))
  {
    var h := DoublerLog(4 * Rounds);
    DoublerLogAlternates(4 * Rounds);
    ReadsFollowWrites(h);
  }

  // ---------------------------------------------------------------------------
  // One schedule over the real objects.

  function Doubles(n: nat): seq<int> {
    seq(n, k requires 0 <= k => 2 * k)
  }

  /** `c = c2.ret().enter()`: from the back-reference to the loop body, under the
      same environment. */
  method Restart(c: Chan) returns (c': Chan)
    requires !c.used && c.state == Var(0) && c.env != [] && c.env[0].Rec? && !c.env[0].body.Offer?
    modifies c
    ensures fresh(c') && !c'.used && c.used
    ensures c'.Current() == Handle(c.env[0].body, c.env)
    ensures c'.input == c.input && c'.output == c.output
  {
    var r := c.Ret();
    var c1 := r.value;
    assert c1.Current() == Handle(c.env[0], c.env[1..]);
    var e := c1.Enter();
    c' := e.value;
    assert [c.env[0]] + c.env[1..] == c.env;
  }

  /** The first exchange of a round: `t1` puts `i`, `t2` takes it. */
  method Exchange1(c: Chan, d: Chan, m: Medium, i: nat) returns (c': Chan, d': Chan)
    requires c != d
    requires m.Valid() && m.types == [IntType] && m.wasRead && m.history == DoublerLog(4 * i)
    requires !c.used && c.Current() == Handle(Body, [Protocol]) && c.input == m && c.output == m
    requires !d.used && d.Current() == Handle(PeerBody, [Peer]) && d.input == m && d.output == m
    modifies c, d, m
    ensures fresh(c') && fresh(d') && c' != d'
    ensures m.Valid() && m.wasRead && m.data == IntValue(i) && m.history == DoublerLog(4 * i + 2)
    ensures !c'.used && c'.Current() == Handle(Body.cont, [Protocol]) && c'.input == m && c'.output == m
    ensures !d'.used && d'.Current() == Handle(PeerBody.cont, [Peer]) && d'.input == m && d'.output == m
  {
    var s := c.Send(T1, IntValue(i));
    c' := s.value;
    var g := d.Receive(T2);
    d' := g.value.next;
    DoublerLogSnoc(4 * i);
    DoublerLogSnoc(4 * i + 1);
    assert (4 * i + 1) / 4 == i;
  }

  /** The second exchange: `t2` puts `val * 2` for the `val = i` it read, `t1` takes it. */
  method Exchange2(c: Chan, d: Chan, m: Medium, i: nat) returns (c': Chan, d': Chan, x: int)
    requires c != d
    requires m.Valid() && m.types == [IntType] && m.wasRead && m.data == IntValue(i)
    requires m.history == DoublerLog(4 * i + 2)
    requires !c.used && c.Current() == Handle(Body.cont, [Protocol]) && c.input == m && c.output == m
    requires !d.used && d.Current() == Handle(PeerBody.cont, [Peer]) && d.input == m && d.output == m
    modifies c, d, m
    ensures fresh(c') && fresh(d') && c' != d'
    ensures m.Valid() && m.wasRead && m.history == DoublerLog(4 * i + 4)
    ensures !c'.used && c'.Current() == Handle(Var(0), [Protocol]) && c'.input == m && c'.output == m
    ensures !d'.used && d'.Current() == Handle(Var(0), [Peer]) && d'.input == m && d'.output == m
    ensures x == 2 * i
  {
    var s := d.Send(T2, IntValue(i * 2));
    d' := s.value;
    var g := c.Receive(T1);
    c' := g.value.next;
    x := g.value.value.content;
    DoublerLogSnoc(4 * i + 2);
    DoublerLogSnoc(4 * i + 3);
    assert (4 * i + 2) / 4 == i && (4 * i + 3) / 4 == i;
  }

  /** One iteration of both loops: the two exchanges, then `ret().enter()` on both sides. */
  method DoublerRound(c: Chan, d: Chan, m: Medium, i: nat) returns (c': Chan, d': Chan, x: int)
    requires c != d
    requires m.Valid() && m.types == [IntType] && m.wasRead && m.history == DoublerLog(4 * i)
    requires !c.used && c.Current() == Handle(Body, [Protocol]) && c.input == m && c.output == m
    requires !d.used && d.Current() == Handle(PeerBody, [Peer]) && d.input == m && d.output == m
    modifies c, d, m
    ensures fresh(c') && fresh(d') && c' != d'
    ensures m.Valid() && m.wasRead && m.history == DoublerLog(4 * (i + 1))
    ensures !c'.used && c'.Current() == Handle(Body, [Protocol]) && c'.input == m && c'.output == m
    ensures !d'.used && d'.Current() == Handle(PeerBody, [Peer]) && d'.input == m && d'.output == m
    ensures x == 2 * i
  {
    var c1, d1 := Exchange1(c, d, m, i);
    var c2, d2;
    c2, d2, x := Exchange2(c1, d1, m, i);
    c' := Restart(c2);
    d' := Restart(d2);
  }

  /** `main`'s set-up: the mailbox over `ProtocolTypes<Protocol>`, `connect`, and
      each role's first `chan.enter()`. */
  method DoublerStart() returns (c: Chan, d: Chan, m: Medium)
    ensures fresh(m) && fresh(c) && fresh(d) && c != d
    ensures m.Valid() && m.types == [IntType] && m.wasRead && m.history == []
    ensures !c.used && c.Current() == Handle(Body, [Protocol]) && c.input == m && c.output == m
    ensures !d.used && d.Current() == Handle(PeerBody, [Peer]) && d.input == m && d.output == m
  {
    ProtocolFacts();
    m := new Medium.ForProtocol(Protocol);
    var chan1, chan2 := Connect(Protocol, m);
    var r1 := chan1.Enter();
    var r2 := chan2.Enter();
    c, d := r1.value, r2.value;
    assert [Protocol] + [] == [Protocol] && [Peer] + [] == [Peer];
  }

  /** `main` of example_concurrent.cc with `t1` and `t2` run in the order
      send, receive, reply, receive, then both `ret().enter()`, every round. */
  method RunDoubler() returns (received: seq<int>, last1: Chan, last2: Chan, m: Medium)
    ensures received == [0, 2, 4, 6, 8]
    ensures !last1.used && last1.Current() == Handle(Body, [Protocol])
    ensures !last2.used && last2.Current() == Handle(PeerBody, [Peer])
    ensures m.Valid() && m.history == DoublerLog(4 * Rounds)
  {
    var c, d;
    c, d, m := DoublerStart();
    received := [];
    var i := 0;
    while i < Rounds
      invariant 0 <= i <= Rounds
      invariant fresh(m) && fresh(c) && fresh(d) && c != d
      invariant m.Valid() && m.types == [IntType] && m.wasRead
      invariant m.history == DoublerLog(4 * i)
      invariant !c.used && c.Current() == Handle(Body, [Protocol]) && c.input == m && c.output == m
      invariant !d.used && d.Current() == Handle(PeerBody, [Peer]) && d.input == m && d.output == m
      invariant received == Doubles(i)
    {
      var x;
      c, d, x := DoublerRound(c, d, m, i);
      received := received + [x];
      i := i + 1;
    }
    last1, last2 := c, d;
  }

  // ---------------------------------------------------------------------------
  // Every schedule.

  /** Where a role stands in its program: before its first `enter`, at the loop
      head, after its first and its second exchange of the round, after `ret`. */
  datatype Pc = Start | Top | Mid | Bottom | Returned

  /** A role: its counter `pc`, loop index `i`, last value read `val`, the values
      it has read so far and the type of its current handle. */
  datatype Role = Role(pc: Pc, i: nat, val: int, got: seq<int>, h: Handle)

  datatype World = World(r1: Role, r2: Role, slot: Slot, log: seq<Event>)

  /** The operation a role performs at `pc`; the leader (`t1`) sends first. */
  function OpAt(leader: bool, pc: Pc): Op {
    match pc
    case Start => EnterOp
    case Top => if leader then SendOp else RecvOp
    case Mid => if leader then RecvOp else SendOp
    case Bottom => RetOp
    case Returned => EnterOp
  }

  /** The loop test `i < 5` failed: the role has returned. */
  predicate Done(r: Role) {
    r.pc == Top && r.i >= Rounds
  }

  predicate Finished(w: World) {
    Done(w.r1) && Done(w.r2)
  }

  /** The counter after the step at `pc`; the `for` increments `i` after `enter`. */
  function Advance(r: Role, h: Handle): Role {
    match r.pc
    case Start => r.(pc := Top, i := 0, h := h)
    case Top => r.(pc := Mid, h := h)
    case Mid => r.(pc := Bottom, h := h)
    case Bottom => r.(pc := Returned, h := h)
    case Returned => r.(pc := Top, i := r.i + 1, h := h)
  }

  datatype Effect = Effect(role: Role, slot: Slot, log: seq<Event>)

  /** One step of a role, or `None` when it cannot move: it is done, its handle
      does not offer the operation, the mailbox would block it, or the value
      waiting is not an `int`. In the source the last case is a
      `std::bad_variant_access` that ends the thread; `SlotHoldsInt` shows it
      never arises. `t1` sends `i`; `t2` sends `val * 2`. */
  function RoleStep(r: Role, self: ThreadId, leader: bool, s: Slot, log: seq<Event>): Option<Effect> {
    if Done(r) then None
    else
      var op := OpAt(leader, r.pc);
      match Next(r.h, op)
      case None => None
      case Some(h') =>
        if op == SendOp then
          if !CanPut(s) then None
          else
            var v := IntValue(if leader then r.i else r.val * 2);
            Some(Effect(Advance(r, h'), AfterPut(s, self, v), log + [Wrote(self, v)]))
        else if op == RecvOp then
          if !CanTake(s, self) || s.data.ty != IntType then None
          else
            var x := s.data.content;
            Some(Effect(Advance(r, h').(val := x, got := r.got + [x]), AfterTake(s), log + [Took(self, s.data)]))
        else Some(Effect(Advance(r, h'), s, log))
  }

  /** The scheduler runs `t1` (`first`) or `t2` for one step. */
  function Step(w: World, first: bool): Option<World> {
    if first then
      match RoleStep(w.r1, T1, true, w.slot, w.log)
      case None => None
      case Some(e) => Some(World(e.role, w.r2, e.slot, e.log))
    else
      match RoleStep(w.r2, T2, false, w.slot, w.log)
      case None => None
      case Some(e) => Some(World(w.r1, e.role, e.slot, e.log))
  }

  /** Both handles fresh from `connect`, the mailbox freshly constructed. */
  function Init(): World {
    World(Role(Start, 0, 0, [], Handle(Protocol, [])), Role(Start, 0, 0, [], Handle(Peer, [])),
          Slot(true, IntValue(0), None), [])
  }

  /** The handle type each role holds at each point of its program. */
  function HandleAt(leader: bool, pc: Pc): Handle {
    match pc
    case Start => if leader then Handle(Protocol, []) else Handle(Peer, [])
    case Top => if leader then Handle(Body, [Protocol]) else Handle(PeerBody, [Peer])
    case Mid => if leader then Handle(Body.cont, [Protocol]) else Handle(PeerBody.cont, [Peer])
    case Bottom => Handle(Var(0), if leader then [Protocol] else [Peer])
    case Returned => if leader then Handle(Protocol, []) else Handle(Peer, [])
  }

  /** At every point the two roles' handles are each other's duals. */
  lemma HandlesDual(pc: Pc)
    ensures HandleAt(false, pc) == DualHandle(HandleAt(true, pc))
  {
    ProtocolFacts();
    var d := DualHandle(HandleAt(true, pc));
    assert |d.env| <= 1;
    if |d.env| == 1 { assert d.env[0] == Dual(Protocol); }
  }

  /** The program counter after the step at `pc`. */
  function NextPc(pc: Pc): Pc {
    match pc
    case Start => Top
    case Top => Mid
    case Mid => Bottom
    case Bottom => Returned
    case Returned => Top
  }

  /** At every point of its program a role's handle offers the operation it performs next. */
  lemma HandleOffersOp(leader: bool, pc: Pc)
    ensures Next(HandleAt(leader, pc), OpAt(leader, pc)) == Some(HandleAt(leader, NextPc(pc)))
  {
    assert [Protocol] + [] == [Protocol] && [Protocol][1..] == [];
    assert [Peer] + [] == [Peer] && [Peer][1..] == [];
  }

  /** How many mailbox operations a role has completed. */
  function Comms(r: Role): nat {
    match r.pc
    case Start => 0
    case Top => 2 * r.i
    case Mid => 2 * r.i + 1
    case Bottom => 2 * r.i + 2
    case Returned => 2 * r.i + 2
  }

  /** How many takes a role has completed: `t1` takes at `Mid`, `t2` at `Top`. */
  function Takes(r: Role, leader: bool): nat {
    match r.pc
    case Start => 0
    case Top => r.i
    case Mid => if leader then r.i else r.i + 1
    case Bottom => r.i + 1
    case Returned => r.i + 1
  }

  /** The shares of the first `n` doubler events that belong to T1 and to T2. */
  function LeaderShare(n: nat): nat {
    2 * (n / 4) + (if n % 4 >= 1 then 1 else 0)
  }

  function ReplierShare(n: nat): nat {
    2 * (n / 4) + (if n % 4 >= 2 then n % 4 - 1 else 0)
  }

  /** The mailbox after the first `n` doubler events. */
  function SlotAfter(n: nat): Slot {
    var q := n / 4;
    if n == 0 then Slot(true, IntValue(0), None)
    else if n % 4 == 1 then Slot(false, IntValue(q), Some(T1))
    else if n % 4 == 2 then Slot(true, IntValue(q), Some(T1))
    else if n % 4 == 3 then Slot(false, IntValue(2 * q), Some(T2))
    else Slot(true, IntValue(2 * (q - 1)), Some(T2))
  }

  predicate RoleInv(r: Role, leader: bool) {
    && r.i <= Rounds
    && (r.i == Rounds ==> r.pc == Top)
    && (r.pc == Start ==> r.i == 0)
    && r.h == HandleAt(leader, r.pc)
    && |r.got| == Takes(r, leader)
    && (forall k :: 0 <= k < |r.got| ==> r.got[k] == if leader then 2 * k else k)
    && (!leader && r.pc == Mid ==> r.val == r.i)
  }

  /** The invariant of every reachable world: each role's progress matches its
      share of the mailbox history, the history is the doubler's, and the slot is
      what that history leaves behind. */
  predicate Inv(w: World) {
    var n := |w.log|;
    && RoleInv(w.r1, true) && RoleInv(w.r2, false)
    && Comms(w.r1) == LeaderShare(n) && Comms(w.r2) == ReplierShare(n)
    && w.log == DoublerLog(n)
    && w.slot == SlotAfter(n)
  }

  /** Steps a role has taken: the first `enter`, then four per round. */
  function Progress(r: Role): nat {
    match r.pc
    case Start => 0
    case Top => 1 + 4 * r.i
    case Mid => 2 + 4 * r.i
    case Bottom => 3 + 4 * r.i
    case Returned => 4 + 4 * r.i
  }

  /** Steps left to both roles: each one takes `1 + 4 * Rounds` steps in all. */
  function Remaining(w: World): int {
    2 * (1 + 4 * Rounds) - Progress(w.r1) - Progress(w.r2)
  }

  lemma DivMod4(q: nat, r: nat)
    requires r < 4
    ensures (4 * q + r) / 4 == q && (4 * q + r) % 4 == r
  {
  }

  /** Which history lengths give a role a given number of completed operations. */
  lemma SharesInverse(n: nat, i: nat)
    ensures LeaderShare(n) == 2 * i ==> n == 4 * i
    ensures LeaderShare(n) == 2 * i + 1 ==> 4 * i + 1 <= n <= 4 * i + 3
    ensures ReplierShare(n) == 2 * i ==> n == 4 * i + 1 || n == 4 * i || (i > 0 && n == 4 * i - 1)
    ensures ReplierShare(n) == 2 * i + 1 ==> n == 4 * i + 2
  {
    var q, r := n / 4, n % 4;
    assert n == 4 * q + r;
  }

  lemma InitInv()
    ensures Inv(Init())
  {
    assert DoublerLog(0) == [];
  }

  /** The leader's put of `i` at the loop head. */
  lemma LeaderPutInv(w: World)
    requires Inv(w) && w.r1.pc == Top && Step(w, true).Some?
    ensures Inv(Step(w, true).value)
  {
    var r, n := w.r1, |w.log|;
    SharesInverse(n, r.i);
    DivMod4(r.i, 0);
    DivMod4(r.i, 1);
    DoublerLogSnoc(n);
  }

  /** The leader's take of the `2 * i` that `t2` put. */
  lemma LeaderTakeInv(w: World)
    requires Inv(w) && w.r1.pc == Mid && Step(w, true).Some?
    ensures Inv(Step(w, true).value)
  {
    var r, n := w.r1, |w.log|;
    var w' := Step(w, true).value;
    SharesInverse(n, r.i);
    DivMod4(r.i, 1);
    DivMod4(r.i, 2);
    DivMod4(r.i, 3);
    DivMod4(r.i + 1, 0);
    assert n == 4 * r.i + 3;
    DoublerLogSnoc(n);
    assert w'.r1.got == r.got + [2 * r.i];
  }

  /** The leader's step keeps the invariant. */
  lemma LeaderStepInv(w: World)
    requires Inv(w) && Step(w, true).Some?
    ensures Inv(Step(w, true).value)
    ensures Progress(Step(w, true).value.r1) == Progress(w.r1) + 1 && Step(w, true).value.r2 == w.r2
  {
    var r, n := w.r1, |w.log|;
    assert [Protocol] + [] == [Protocol] && [Protocol][1..] == [];
    match r.pc
    case Start =>
      SharesInverse(n, 0);
    case Top =>
      LeaderPutInv(w);
    case Mid =>
      LeaderTakeInv(w);
    case Bottom =>
    case Returned =>
  }

  /** The replier's take at the loop head, of the `i` that `t1` put. */
  lemma ReplierTakeInv(w: World)
    requires Inv(w) && w.r2.pc == Top && Step(w, false).Some?
    ensures Inv(Step(w, false).value)
  {
    var r, n := w.r2, |w.log|;
    var w' := Step(w, false).value;
    SharesInverse(n, r.i);
    if r.i > 0 { DivMod4(r.i - 1, 3); }
    DivMod4(r.i, 0);
    DivMod4(r.i, 1);
    DivMod4(r.i, 2);
    assert n == 4 * r.i + 1;
    DoublerLogSnoc(n);
    assert w'.r2.got == r.got + [r.i];
  }

  /** The replier's put of `val * 2`. */
  lemma ReplierPutInv(w: World)
    requires Inv(w) && w.r2.pc == Mid && Step(w, false).Some?
    ensures Inv(Step(w, false).value)
  {
    var r, n := w.r2, |w.log|;
    SharesInverse(n, r.i);
    DivMod4(r.i, 2);
    DivMod4(r.i, 3);
    DoublerLogSnoc(n);
  }

  /** The replier's step keeps the invariant. */
  lemma ReplierStepInv(w: World)
    requires Inv(w) && Step(w, false).Some?
    ensures Inv(Step(w, false).value)
    ensures Progress(Step(w, false).value.r2) == Progress(w.r2) + 1 && Step(w, false).value.r1 == w.r1
  {
    var r, n := w.r2, |w.log|;
    assert [Peer] + [] == [Peer] && [Peer][1..] == [];
    match r.pc
    case Start =>
      SharesInverse(n, 0);
    case Top =>
      ReplierTakeInv(w);
    case Mid =>
      ReplierPutInv(w);
    case Bottom =>
    case Returned =>
  }

  /** Every enabled step, by either role, keeps the invariant and makes progress. */
  lemma StepPreservesInv(w: World, first: bool)
    requires Inv(w) && Step(w, first).Some?
    ensures Inv(Step(w, first).value)
    ensures Remaining(Step(w, first).value) < Remaining(w)
  {
    if first { LeaderStepInv(w); } else { ReplierStepInv(w); }
  }

  /** The mailbox only ever holds an `int`, so `std::get<int>` never throws and a
      role that may take can always take. */
  lemma SlotHoldsInt(w: World)
    requires Inv(w)
    ensures w.slot.data.ty == IntType
    ensures CanTake(w.slot, T1) ==> w.slot.data == IntValue(w.slot.data.content)
    ensures CanTake(w.slot, T2) ==> w.slot.data == IntValue(w.slot.data.content)
  {
  }

  /** Until both roles have left their loops, at least one of them can move: the
      program cannot deadlock, so both joins in `main` are reached. */
  lemma NoDeadlock(w: World)
    requires Inv(w) && !Finished(w)
    ensures Step(w, true).Some? || Step(w, false).Some?
  {
    var n := |w.log|;
    var r1, r2 := w.r1, w.r2;
    HandleOffersOp(true, r1.pc);
    HandleOffersOp(false, r2.pc);
    if r1.pc == Top && r1.i < Rounds {
      SharesInverse(n, r1.i);
      DivMod4(r1.i, 0);
    } else if r1.pc == Mid {
      SharesInverse(n, r1.i);
      SharesInverse(n, r2.i);
      DivMod4(r1.i, 1);
      DivMod4(r1.i, 2);
      DivMod4(r1.i, 3);
    } else if r1.pc == Top {
      SharesInverse(n, r1.i);
      SharesInverse(n, r2.i);
    }
  }

  /** At the end both handles sit in the loop body, `t1` has read `0, 2, 4, 6, 8`,
      `t2` has read `0, 1, 2, 3, 4`, and the history is the doubler's twenty events. */
  lemma FinishedFacts(w: World)
    requires Inv(w) && Finished(w)
    ensures w.log == DoublerLog(4 * Rounds)
    ensures w.r1.got == [0, 2, 4, 6, 8] && w.r2.got == [0, 1, 2, 3, 4]
    ensures w.r1.h == Handle(Body, [Protocol]) && w.r2.h == Handle(PeerBody, [Peer])
  {
    SharesInverse(|w.log|, Rounds);
  }

  /** The scheduler's pick: the role it names when that role can move, the
      other one otherwise, and `None` when neither can. */
  function Pick(w: World, first: bool): Option<World> {
    match Step(w, first)
    case Some(w') => Some(w')
    case None => Step(w, !first)
  }

  /** A picked step keeps the invariant and makes progress; nothing can be
      picked only once both roles are done. */
  lemma PickPreservesInv(w: World, first: bool)
    requires Inv(w)
    ensures Pick(w, first).Some? ==> Inv(Pick(w, first).value) && Remaining(Pick(w, first).value) < Remaining(w)
    ensures Pick(w, first).None? ==> Finished(w)
  {
    if Step(w, first).Some? {
      StepPreservesInv(w, first);
    } else if Step(w, !first).Some? {
      StepPreservesInv(w, !first);
    } else if !Finished(w) {
      NoDeadlock(w);
    }
  }

  /** A run under a scheduler's picks: each pick names the role it would like to
      run; when that role cannot move the other one runs, and when neither can the
      run stops. */
  function Schedule(w: World, picks: seq<bool>): World
    decreases |picks|
  {
    if picks == [] then w
    else match Pick(w, picks[0])
      case Some(w') => Schedule(w', picks[1..])
      case None => w
  }

  /** Whatever the scheduler picks, the invariant holds throughout, and enough
      picks always finish both roles. */
  lemma {:induction false} ScheduleInv(w: World, picks: seq<bool>)
    requires Inv(w)
    ensures Inv(Schedule(w, picks))
    ensures |picks| >= Remaining(w) ==> Finished(Schedule(w, picks))
    decreases |picks|
  {
    if picks != [] {
      PickPreservesInv(w, picks[0]);
      if Pick(w, picks[0]).Some? {
        ScheduleInv(Pick(w, picks[0]).value, picks[1..]);
      }
    }
  }

  /** Every schedule of the doubler that runs long enough ends with `t1` having read
      `0, 2, 4, 6, 8` and the mailbox history of the single schedule of `RunDoubler`. */
  lemma EverySchedule(picks: seq<bool>)
    requires |picks| >= 2 * (4 * Rounds + 1)
    ensures var w := Schedule(Init(), picks);
      && Finished(w) && w.log == DoublerLog(4 * Rounds)
      && w.r1.got == [0, 2, 4, 6, 8] && w.r2.got == [0, 1, 2, 3, 4]
      && w.r1.h == Handle(Body, [Protocol]) && w.r2.h == Handle(PeerBody, [Peer])
  {
    InitInv();
    ScheduleInv(Init(), picks);
    FinishedFacts(Schedule(Init(), picks));
  }
}
