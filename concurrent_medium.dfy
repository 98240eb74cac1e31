/** concurrentmedium.hh: the payload-type analysis `ProtocolTypes` that sizes the
    mailbox's variant, and `ConcurrentMedium`, the single-slot mailbox shared by two
    threads. Blocking is read as "the step is not enabled": the enabling conditions
    are the predicates `CanPut` and `CanTake`, and the mailbox rules are the pure
    functions `AfterPut` and `AfterTake`, which the class implements. */
module ConcurrentMedium {
  import opened SessionTypes
  import opened TypeLists

  /** Protocols on which `ProtocolTypesImpl` is defined: the walk meets no
      `Choose` or `Offer`, for which there is no specialisation. */
  predicate Walkable(p: Proto) {
    match p
    case End => true
    case Send(_, k) => Walkable(k)
    case Recv(_, k) => Walkable(k)
    case Rec(b) => Walkable(b)
    case Var(_) => true
    case Choose(_, _) => false
    case Offer(_, _) => false
  }

  /** `ProtocolTypesImpl<variant<Ts...>, P>`: `Send`/`Recv` prepend their payload,
      `Rec` descends, `Var` stops, `Z` stops and prepends `Z`. */
  function ProtocolTypesImpl(acc: seq<Type>, p: Proto): seq<Type>
    requires Walkable(p)
    decreases p
  {
    match p
    case Recv(t, k) => ProtocolTypesImpl([t] + acc, k)
    case End => [ZType] + acc
    case Send(t, k) => ProtocolTypesImpl([t] + acc, k)
    case Rec(b) => ProtocolTypesImpl(acc, b)
    case Var(_) => acc
  }

  /** `ProtocolTypes<P>`: the collected pack, deduplicated. */
  function ProtocolTypes(p: Proto): seq<Type>
    requires Walkable(p)
  {
    UniqueVariant(ProtocolTypesImpl([], p))
  }

  /** Reference walk: the payload types in the order the protocol meets them, then
      `Z` when the walk ends in `Z` rather than at a `Var`. */
  function Walk(p: Proto): seq<Type>
    requires Walkable(p)
  {
    match p
    case End => [ZType]
    case Send(t, k) => [t] + Walk(k)
    case Recv(t, k) => [t] + Walk(k)
    case Rec(b) => Walk(b)
    case Var(_) => []
  }

  /** The accumulator ends up holding the walk in reverse, in front of what it held. */
  lemma {:induction false} ProtocolTypesImplReversesWalk(acc: seq<Type>, p: Proto)
    requires Walkable(p)
    ensures ProtocolTypesImpl(acc, p) == Reverse(Walk(p)) + acc
    decreases p
  {
    match p
    case End =>
      assert Reverse([ZType]) == [ZType] by { assert [ZType][1..] == []; }
    case Send(t, k) =>
      ProtocolTypesImplReversesWalk([t] + acc, k);
      assert ([t] + Walk(k))[1..] == Walk(k);
    case Recv(t, k) =>
      ProtocolTypesImplReversesWalk([t] + acc, k);
      assert ([t] + Walk(k))[1..] == Walk(k);
    case Rec(b) =>
      ProtocolTypesImplReversesWalk(acc, b);
    case Var(_) =>
  }

  /** `ProtocolTypes<P>` lists every type the walk meets, each once, in the order of
      first occurrence in the reversed walk. */
  lemma ProtocolTypesSpec(p: Proto)
    requires Walkable(p)
    ensures ProtocolTypes(p) == UniqueVariant(Reverse(Walk(p)))
    ensures NoDup(ProtocolTypes(p))
    ensures forall t :: t in ProtocolTypes(p) <==> t in Walk(p)
  {
    ProtocolTypesImplReversesWalk([], p);
    assert Reverse(Walk(p)) + [] == Reverse(Walk(p));
    UniqueVariantSpec(Reverse(Walk(p)));
    ReverseElements(Walk(p));
  }

  lemma {:induction false} WalkDual(p: Proto)
    requires Walkable(p)
    ensures Walkable(Dual(p)) && Walk(Dual(p)) == Walk(p)
  {
    match p
    case End =>
    case Send(_, k) => WalkDual(k);
    case Recv(_, k) => WalkDual(k);
    case Rec(b) => WalkDual(b);
    case Var(_) =>
  }

  /** Both ends of a connection agree on the storage type of their medium. */
  lemma ProtocolTypesOfDual(p: Proto)
    requires Walkable(p)
    ensures Walkable(Dual(p)) && ProtocolTypes(Dual(p)) == ProtocolTypes(p)
  {
    WalkDual(p);
    ProtocolTypesImplReversesWalk([], p);
    ProtocolTypesImplReversesWalk([], Dual(p));
  }

  /** A thread identity (`std::thread::id`). */
  type ThreadId = nat

  /** The mailbox state that the guards and effects depend on: `was_read`, `data`
      and `write_source` (`None` is the default-constructed id, which names no thread). */
  datatype Slot = Slot(wasRead: bool, data: Value, writeSource: Option<ThreadId>)

  /** `operator<<` waits while `!was_read`. */
  predicate CanPut(s: Slot) {
    s.wasRead
  }

  /** `operator>>` waits while `write_source == this_thread || was_read`. */
  predicate CanTake(s: Slot, self: ThreadId) {
    !s.wasRead && s.writeSource != Some(self)
  }

  function AfterPut(s: Slot, self: ThreadId, v: Value): Slot {
    Slot(false, v, Some(self))
  }

  function AfterTake(s: Slot): Slot {
    s.(wasRead := true)
  }

  /** One completed operation on the mailbox, as recorded in its history. */
  datatype Event = Wrote(writer: ThreadId, value: Value) | Took(reader: ThreadId, value: Value)

  /** Puts and takes alternate, starting with a put; every take delivers the value
      of the put just before it to a thread other than its writer. */
  ghost predicate Alternates(h: seq<Event>) {
    forall i {:trigger h[i]} :: 0 <= i < |h| ==>
      if i % 2 == 0 then h[i].Wrote?
      else h[i].Took? && h[i - 1].Wrote? && h[i].value == h[i - 1].value && h[i].reader != h[i - 1].writer
  }

  /** The slot reflects the history: it is read exactly when every put has been
      taken, and otherwise holds the last put's value and writer. */
  ghost predicate Reflects(s: Slot, h: seq<Event>) {
    && (s.wasRead <==> |h| % 2 == 0)
    && (!s.wasRead ==> s.writeSource.Some? && h[|h| - 1] == Wrote(s.writeSource.value, s.data))
  }

  /** The value streams of a history: what was written and what was read. */
  function Written(h: seq<Event>): seq<Value> {
    if h == [] then []
    else Written(h[..|h| - 1]) + (if h[|h| - 1].Wrote? then [h[|h| - 1].value] else [])
  }

  function Read(h: seq<Event>): seq<Value> {
    if h == [] then []
    else Read(h[..|h| - 1]) + (if h[|h| - 1].Took? then [h[|h| - 1].value] else [])
  }

  lemma AlternatesPrefix(h: seq<Event>, k: nat)
    requires Alternates(h) && k <= |h|
    ensures Alternates(h[..k])
  {
    var p := h[..k];
    forall i | 0 <= i < k
      ensures if i % 2 == 0 then p[i].Wrote?
              else p[i].Took? && p[i - 1].Wrote? && p[i].value == p[i - 1].value && p[i].reader != p[i - 1].writer
    {
      assert p[i] == h[i];
      if i % 2 == 1 { assert p[i - 1] == h[i - 1]; }
    }
  }

  /** Appending the event the alternation expects next keeps a history alternating. */
  lemma AlternatesSnoc(h: seq<Event>, e: Event)
    requires Alternates(h)
    requires |h| % 2 == 0 ==> e.Wrote?
    requires |h| % 2 == 1 ==>
      e.Took? && h[|h| - 1].Wrote? && e.value == h[|h| - 1].value && e.reader != h[|h| - 1].writer
    ensures Alternates(h + [e])
  {
    var h' := h + [e];
    assert forall i :: 0 <= i < |h| ==> h'[i] == h[i];
  }

  /** Every written value is read at most once and in write order: the reads are a
      prefix of the writes, which are ahead by at most the one value in the slot. */
  lemma {:induction false} ReadsFollowWrites(h: seq<Event>)
    requires Alternates(h)
    ensures |Written(h)| == |Read(h)| + |h| % 2 && |Read(h)| == |h| / 2
    ensures Read(h) == Written(h)[..|Read(h)|]
  {
    if h != [] {
      var n := |h| - 1;
      var h' := h[..n];
      AlternatesPrefix(h, n);
      ReadsFollowWrites(h');
      if n % 2 == 0 {
        assert h[n].Wrote?;
        assert Written(h) == Written(h') + [h[n].value];
        assert Read(h) == Read(h');
        assert Written(h)[..|Read(h)|] == Written(h')[..|Read(h')|];
      } else {
        // the last event takes the value put just before it
        assert h[n].Took? && h[n - 1].Wrote? && h[n].value == h[n - 1].value;
        assert h'[n - 1] == h[n - 1];
        assert Written(h') == Written(h'[..n - 1]) + [h[n - 1].value];
        assert Written(h) == Written(h');
        assert Read(h) == Read(h') + [h[n].value];
        assert Written(h')[..|Read(h')|] + [Written(h')[|Read(h')|]] == Written(h');
      }
    }
  }

  /** A put is enabled exactly when every value written so far has been read. */
  lemma PutEnabledIffAllRead(s: Slot, h: seq<Event>)
    requires Alternates(h) && Reflects(s, h)
    ensures CanPut(s) <==> |Read(h)| == |Written(h)|
  {
    ReadsFollowWrites(h);
  }

  /** `ConcurrentMedium<variant<Ts...>>` (and `ConcurrentChannel<P>` of test.cc,
      whose storage is `ProtocolTypes<P>`). The thread calling an operation is an
      explicit parameter. The mutex and condition variables are not modelled; the
      waiting counters are, and every completed operation leaves them as it found
      them, since each increment is undone after the wait it guards. */
  class Medium {
    const types: seq<Type>
    var wasRead: bool
    var data: Value
    var writeSource: Option<ThreadId>
    var readersWaiting: int
    var writersWaiting: int
    ghost var history: seq<Event>

    function Current(): Slot
      reads this
    {
      Slot(wasRead, data, writeSource)
    }

    ghost predicate Valid()
      reads this
    {
      && types != [] && NoDup(types)
      && OneOf(data.ty, types)
      && Alternates(history)
      && Reflects(Current(), history)
    }

    /** `ConcurrentMedium()`: nothing written yet. A `std::variant` needs at least
      one alternative, and `std::get<T>` and the assignment from `T` are ill-formed
      when `T` occurs twice among them; `data` starts as the value-initialised first one. */
    constructor (types: seq<Type>)
      requires types != [] && NoDup(types)
      ensures Valid() && this.types == types && history == []
      ensures wasRead && writeSource == None && data == Value(types[0], 0)
      ensures readersWaiting == 0 && writersWaiting == 0
    {
      this.types := types;
      wasRead := true;
      data := Value(types[0], 0);
      writeSource := None;
      readersWaiting := 0;
      writersWaiting := 0;
      history := [];
    }

    /** `ConcurrentChannel<P>()` of test.cc: the same mailbox, storing `ProtocolTypes<P>`. */
    constructor ForProtocol(p: Proto)
      requires Walkable(p) && Walk(p) != []
      ensures Valid() && types == ProtocolTypes(p) && history == []
      ensures wasRead && writeSource == None && data == Value(types[0], 0)
      ensures readersWaiting == 0 && writersWaiting == 0
    {
      ProtocolTypesSpec(p);
      assert Walk(p)[0] in ProtocolTypes(p);
      types := ProtocolTypes(p);
      wasRead := true;
      data := Value(ProtocolTypes(p)[0], 0);
      writeSource := None;
      readersWaiting := 0;
      writersWaiting := 0;
      history := [];
    }

    /** `operator<<(const T&)` for a `T` among the variant's alternatives, once the
      previous value has been read. */
    method Put(self: ThreadId, v: Value)
      requires Valid() && OneOf(v.ty, types)
      requires CanPut(Current())
      modifies this
      ensures Valid()
      ensures Current() == AfterPut(old(Current()), self, v)
      ensures history == old(history) + [Wrote(self, v)]
      ensures readersWaiting == old(readersWaiting) && writersWaiting == old(writersWaiting)
    {
      AlternatesSnoc(history, Wrote(self, v));
      data := v;
      wasRead := false;
      writeSource := Some(self);
      history := history + [Wrote(self, v)];
    }

    /** `operator>>(T&)` for a `T` among the alternatives, once a value written by
      another thread is waiting. `std::get<T>` throws (`None`) when the stored
      alternative is not `T`; the throw comes before `was_read` is set. */
    method Take(self: ThreadId, ty: Type) returns (r: Option<Value>)
      requires Valid() && OneOf(ty, types)
      requires CanTake(Current(), self)
      modifies this
      ensures Valid()
      ensures old(data).ty == ty ==>
        && r == Some(old(data))
        && Current() == AfterTake(old(Current()))
        && history == old(history) + [Took(self, old(data))]
      ensures old(data).ty != ty ==>
        r == None && unchanged(this)
      ensures readersWaiting == old(readersWaiting) && writersWaiting == old(writersWaiting)
    {
      if data.ty != ty {
        return None;
      }
      AlternatesSnoc(history, Took(self, data));
      r := Some(data);
      wasRead := true;
      history := history + [Took(self, data)];
    }
  }
}
