/** The typestate channel of sesstypes.hh: `ChanBase` (the transports and the
    `used` flag) and every `Chan<P, IT, OT, E>` specialisation. The state `P` and the
    environment `E`, template arguments in the source, are constant fields here. Each
    method requires that `Next` gives a successor: a specialisation provides the
    operation and its declared result type has a `Chan` class. For `ret` on
    `Var(k+1)` the successor is that declared type, although the source's body
    builds a different one and does not compile as written. Both transports are
    mailboxes: the channel reads from `input` and writes to `output`. */
module Channel {
  import opened SessionTypes
  import opened TypeLists
  import opened ConcurrentMedium

  /** `ChannelReusedError`, and the `std::bad_variant_access` that `std::get`
      throws when a value of another alternative is waiting. */
  datatype Error = ChannelReusedError | BadVariantAccess

  datatype Result<T> = Ok(value: T) | Err(error: Error)

  /** What `operator>>` yields: the value read into `t` and the successor handle. */
  datatype Received = Received(value: Value, next: Chan)

  class Chan {
    const state: Proto
    const env: seq<Proto>
    const input: Medium
    const output: Medium
    var used: bool

    /** `ChanBase(input, output)`: a fresh handle is unused. Only a handle type
      with a `Chan` class can be constructed. */
    constructor (state: Proto, env: seq<Proto>, input: Medium, output: Medium)
      requires HasChan(Handle(state, env))
      ensures this.state == state && this.env == env
      ensures this.input == input && this.output == output
      ensures !used
    {
      this.state := state;
      this.env := env;
      this.input := input;
      this.output := output;
      used := false;
    }

    /** The implicit copy constructor of `Chan`: the copy has its own `used` flag,
      initialised from the original's. */
    constructor Copy(c: Chan)
      ensures state == c.state && env == c.env && input == c.input && output == c.output
      ensures used == c.used
    {
      state := c.state;
      env := c.env;
      input := c.input;
      output := c.output;
      used := c.used;
    }

    function Current(): Handle {
      Handle(state, env)
    }

    /** `operator>>(T &t)` of `Chan<Recv<T, P>, ...>`. The handle is marked used
      BEFORE the read, so a failed read still consumes it. A read blocks until the
      input holds a value from another thread, which the caller must make enabled. */
    method Receive(self: ThreadId) returns (r: Result<Received>)
      requires state.Recv? && Next(Current(), RecvOp).Some?
      requires input.Valid() && OneOf(state.t, input.types)
      requires !used ==> CanTake(input.Current(), self)
      modifies this, input
      ensures used && input.Valid()
      ensures old(used) ==> r == Err(ChannelReusedError) && unchanged(input)
      ensures !old(used) && old(input.data).ty != state.t ==>
        r == Err(BadVariantAccess) && unchanged(input)
      ensures !old(used) && old(input.data).ty == state.t ==>
        && r.Ok? && r.value.value == old(input.data)
        && input.Current() == AfterTake(old(input.Current()))
        && input.history == old(input.history) + [Took(self, old(input.data))]
        && input.readersWaiting == old(input.readersWaiting)
        && input.writersWaiting == old(input.writersWaiting)
        && fresh(r.value.next) && !r.value.next.used
        && Next(Current(), RecvOp) == Some(r.value.next.Current())
        && r.value.next.input == input && r.value.next.output == output
    {
      if used {
        return Err(ChannelReusedError);
      }
      used := true;
      var v := input.Take(self, state.t);
      if v.None? {
        return Err(BadVariantAccess);
      }
      var next := new Chan(state.cont, env, input, output);
      r := Ok(Received(v.value, next));
    }

    /** `operator<<(const T &t)` of `Chan<Send<T, P>, ...>`: waits for the output
      to be free, then writes `t` to it. */
    method Send(self: ThreadId, v: Value) returns (r: Result<Chan>)
      requires state.Send? && Next(Current(), SendOp).Some?
      requires v.ty == state.t && output.Valid() && OneOf(v.ty, output.types)
      requires !used ==> CanPut(output.Current())
      modifies this, output
      ensures used && output.Valid()
      ensures old(used) ==> r == Err(ChannelReusedError) && unchanged(output)
      ensures !old(used) ==>
        && r.Ok?
        && output.Current() == AfterPut(old(output.Current()), self, v)
        && output.history == old(output.history) + [Wrote(self, v)]
        && output.readersWaiting == old(output.readersWaiting)
        && output.writersWaiting == old(output.writersWaiting)
        && fresh(r.value) && !r.value.used
        && Next(Current(), SendOp) == Some(r.value.Current())
        && r.value.input == input && r.value.output == output
    {
      if used {
        return Err(ChannelReusedError);
      }
      used := true;
      output.Put(self, v);
      var next := new Chan(state.cont, env, input, output);
      r := Ok(next);
    }

    /** `enter()` of `Chan<Rec<P>, ...>`: the body, with `Rec<P>` pushed onto the environment. */
    method Enter() returns (r: Result<Chan>)
      requires Next(Current(), EnterOp).Some?
      modifies this
      ensures used
      ensures old(used) ==> r == Err(ChannelReusedError)
      ensures !old(used) ==>
        && r.Ok? && fresh(r.value) && !r.value.used
        && Next(Current(), EnterOp) == Some(r.value.Current())
        && r.value.input == input && r.value.output == output
    {
      if used {
        return Err(ChannelReusedError);
      }
      used := true;
      var next := new Chan(state.body, [state] + env, input, output);
      r := Ok(next);
    }

    /** `ret()` of `Chan<Var<Z>, ..., pair<P, E>>` (the enclosing entry, environment
      popped) and of `Chan<Var<Succ<T>>, ..., pair<P, E>>` (its declared result
      `Var<T>` under the popped environment). Neither matches an empty environment. */
    method Ret() returns (r: Result<Chan>)
      requires Next(Current(), RetOp).Some?
      modifies this
      ensures used
      ensures old(used) ==> r == Err(ChannelReusedError)
      ensures !old(used) ==>
        && r.Ok? && fresh(r.value) && !r.value.used
        && Next(Current(), RetOp) == Some(r.value.Current())
        && r.value.input == input && r.value.output == output
    {
      if used {
        return Err(ChannelReusedError);
      }
      used := true;
      var next;
      if state.index == 0 {
        next := new Chan(env[0], env[1..], input, output);
      } else {
        next := new Chan(Var(state.index - 1), env[1..], input, output);
      }
      r := Ok(next);
    }

    /** `choose1()` of `Chan<Choose<P1, P2>, ...>`: the first branch; nothing is
      sent to the peer. */
    method Choose1() returns (r: Result<Chan>)
      requires Next(Current(), Choose1Op).Some?
      modifies this
      ensures used
      ensures old(used) ==> r == Err(ChannelReusedError)
      ensures !old(used) ==>
        && r.Ok? && fresh(r.value) && !r.value.used
        && Next(Current(), Choose1Op) == Some(r.value.Current())
        && r.value.input == input && r.value.output == output
    {
      if used {
        return Err(ChannelReusedError);
      }
      used := true;
      var next := new Chan(state.left, env, input, output);
      r := Ok(next);
    }

    /** `choose2()` of `Chan<Choose<P1, P2>, ...>`: the second branch. */
    method Choose2() returns (r: Result<Chan>)
      requires Next(Current(), Choose2Op).Some?
      modifies this
      ensures used
      ensures old(used) ==> r == Err(ChannelReusedError)
      ensures !old(used) ==>
        && r.Ok? && fresh(r.value) && !r.value.used
        && Next(Current(), Choose2Op) == Some(r.value.Current())
        && r.value.input == input && r.value.output == output
    {
      if used {
        return Err(ChannelReusedError);
      }
      used := true;
      var next := new Chan(state.right, env, input, output);
      r := Ok(next);
    }
  }

  /** A stale handle is refused: after `choose1()` the same object cannot take
      `choose2()`. The guard is per object: see `CopyEscapesReuseGuard`. */
  method ChoiceIsFinal(a: Proto, b: Proto, m: Medium) returns (first: Result<Chan>, second: Result<Chan>)
    requires HasChan(Handle(a, [])) && HasChan(Handle(b, []))
    ensures first.Ok? && first.value.Current() == Handle(a, [])
    ensures second == Err(ChannelReusedError)
  {
    var c := new Chan(Choose(a, b), [], m, m);
    first := c.Choose1();
    second := c.Choose2();
  }

  /** `auto d = c; c.choose1(); d.choose2();`: a copy taken before an operation
      carries its own unused flag, so both branches are taken and no
      `ChannelReusedError` is raised. */
  method CopyEscapesReuseGuard(a: Proto, b: Proto, m: Medium) returns (first: Result<Chan>, second: Result<Chan>)
    requires HasChan(Handle(a, [])) && HasChan(Handle(b, []))
    ensures first.Ok? && first.value.Current() == Handle(a, [])
    ensures second.Ok? && second.value.Current() == Handle(b, [])
  {
    var c := new Chan(Choose(a, b), [], m, m);
    var d := new Chan.Copy(c);
    first := c.Choose1();
    second := d.Choose2();
  }
}
