/** The protocol grammar of sesstypes.hh made explicit: the template states `Z`,
    `Send<T,P>`, `Recv<T,P>`, `Rec<P>`, `Var<n>`, `Choose<A,B>` and `Offer<A,B>`
    become one datatype, their `dual` typedefs become `Dual`, and the choice of
    `Chan` specialisation (which operation exists in which state and under which
    environment type `E`) becomes the partial step function `Next`. */
module SessionTypes {

  /** A payload type as a tag with equality. `ZType` is the C++ type `Z` itself,
      which ProtocolTypes lists as the marker of a protocol end. */
  datatype Type = ZType | Named(name: string)

  const IntType: Type := Named("int")

  /** A value in flight: the variant alternative it is stored as, and its content
      (contents are abstracted to integers, the only payload the concurrent roles use). */
  datatype Value = Value(ty: Type, content: int)

  datatype Option<T> = None | Some(value: T)

  /** Protocol states. `Var(n)` is `Var<Succ^n<Z>>`: the unary naturals built from
      `Z` and `Succ` (checked by `IsNat`) are Dafny's `nat`. */
  datatype Proto =
    | End                            // Z
    | Send(t: Type, cont: Proto)
    | Recv(t: Type, cont: Proto)
    | Rec(body: Proto)
    | Var(index: nat)
    | Choose(left: Proto, right: Proto)
    | Offer(left: Proto, right: Proto)

  /** The `dual` typedef of each state. As in the source, the branches of a choice
      are NOT dualised: `Choose<A,B>::dual` is `Offer<A,B>` and back. */
  function Dual(p: Proto): Proto {
    match p
    case End => End
    case Send(t, k) => Recv(t, Dual(k))
    case Recv(t, k) => Send(t, Dual(k))
    case Rec(b) => Rec(Dual(b))
    case Var(n) => Var(n)
    case Choose(a, b) => Offer(a, b)
    case Offer(a, b) => Choose(a, b)
  }

  lemma {:induction false} DualInvolutive(p: Proto)
    ensures Dual(Dual(p)) == p
  {
    match p
    case End =>
    case Send(_, k) => DualInvolutive(k);
    case Recv(_, k) => DualInvolutive(k);
    case Rec(b) => DualInvolutive(b);
    case Var(_) =>
    case Choose(_, _) =>
    case Offer(_, _) =>
  }

  /** The choice quirk: the peer of `Choose<A,B>` offers the very same branches,
      so a branch `Send<T,..>` stays a `Send` on both sides. */
  lemma DualOfChooseKeepsBranches(a: Proto, b: Proto)
    ensures Dual(Choose(a, b)) == Offer(a, b)
    ensures Dual(Offer(a, b)) == Choose(a, b)
    ensures Dual(Choose(a, b)).left.Send? <==> a.Send?
  {
  }

  /** The type-level part of a `Chan<P, IT, OT, E>`: its state `P` and its
      environment `E`, innermost first (`std::pair<Rec<P>, E>` is `[Rec(P)] + E`,
      the default `E = Z` is `[]`). */
  datatype Handle = Handle(state: Proto, env: seq<Proto>)

  /** The operations a `Chan` specialisation may expose. */
  datatype Op = SendOp | RecvOp | EnterOp | RetOp | Choose1Op | Choose2Op

  /** Whether a `Chan` class exists for `h`. The primary template is only declared,
      the `Offer` specialisation is commented out, and both `ret` specialisations
      match only a `std::pair` environment, so `Chan<Offer<..>, ..>` and a `Var`
      under the default `E = Z` are incomplete types: no object of them can be built. */
  predicate HasChan(h: Handle) {
    !h.state.Offer? && !(h.state.Var? && h.env == [])
  }

  /** The handle type that the specialisation for `h` declares as the result of
      `op`, or `None` when no specialisation provides `op` for `h`. `ret` on
      `Var(k+1)` declares `Var(k)`. */
  function Declared(h: Handle, op: Op): Option<Handle> {
    match h.state
    case Send(_, k) => if op == SendOp then Some(Handle(k, h.env)) else None
    case Recv(_, k) => if op == RecvOp then Some(Handle(k, h.env)) else None
    case Rec(b) => if op == EnterOp then Some(Handle(b, [h.state] + h.env)) else None
    case Var(n) =>
      if op != RetOp || h.env == [] then None
      else if n == 0 then Some(Handle(h.env[0], h.env[1..]))
      else Some(Handle(Var(n - 1), h.env[1..]))
    case Choose(a, b) =>
      if op == Choose1Op then Some(Handle(a, h.env))
      else if op == Choose2Op then Some(Handle(b, h.env))
      else None
    case Offer(_, _) => None
    case End => None
  }

  /** The handle type that `op` on `h` returns: the result type the specialisation
      declares, kept only when it has a `Chan` class. `None` when no specialisation
      provides `op`, or the declared result has no class. For `ret` on `Var(k+1)`
      this is the declared `Var(k)`, not the type the body builds (see
      `RetConstructedDisagreesWithDeclared`). Each state has exactly its own
      operations, both ends of a step have a class, and only `enter` and `ret`
      touch the environment. */
  function Next(h: Handle, op: Op): (r: Option<Handle>)
    ensures r.Some? ==> HasChan(h) && HasChan(r.value)
    ensures r.Some? ==> match h.state
      case Send(_, _) => op == SendOp
      case Recv(_, _) => op == RecvOp
      case Rec(_) => op == EnterOp
      case Var(_) => op == RetOp
      case Choose(_, _) => op == Choose1Op || op == Choose2Op
      case _ => false
    ensures r.Some? && op == EnterOp ==> r.value.env == [h.state] + h.env
    ensures r.Some? && op == RetOp ==> h.env != [] && r.value.env == h.env[1..]
    ensures r.Some? && op != EnterOp && op != RetOp ==> r.value.env == h.env
  {
    match Declared(h, op)
    case None => None
    case Some(h') => if HasChan(h') then Some(h') else None
  }

  /** Calls whose declared result has no `Chan` class do not compile: a send into a
      `Var` outside every loop, a receive into an `Offer`, and a `ret` that leaves a
      `Var` under the default environment. */
  lemma IncompleteResultsRejected(t: Type, a: Proto, b: Proto, e: seq<Proto>, x: Proto)
    ensures Next(Handle(Send(t, Var(0)), []), SendOp) == None
    ensures Next(Handle(Recv(t, Offer(a, b)), e), RecvOp) == None
    ensures Next(Handle(Var(1), [x]), RetOp) == None
    ensures Next(Handle(Send(t, Var(0)), [x]), SendOp) == Some(Handle(Var(0), [x]))
  {
    assert [x][1..] == [];
  }

  /** Runs a sequence of operations from `h`; `None` as soon as one is not provided. */
  function Run(h: Handle, ops: seq<Op>): Option<Handle>
    decreases |ops|
  {
    if ops == [] then Some(h)
    else match Next(h, ops[0])
      case None => None
      case Some(h') => Run(h', ops[1..])
  }

  lemma {:induction false} RunAppend(h: Handle, a: seq<Op>, b: seq<Op>)
    ensures Run(h, a + b) == match Run(h, a) case None => None case Some(h') => Run(h', b)
    decreases |a|
  {
    if a == [] {
      assert a + b == b;
    } else {
      assert (a + b)[0] == a[0];
      assert (a + b)[1..] == a[1..] + b;
      match Next(h, a[0])
      case None =>
      case Some(h') => RunAppend(h', a[1..], b);
    }
  }

  /** Neither `Z` nor a handle without a `Chan` class exposes an operation, a
      handle at `Offer` has no class at all, and no operation leads to one. */
  lemma NoOperationsAtEndOrOffer(h: Handle, op: Op)
    ensures h.state.End? || !HasChan(h) ==> Next(h, op) == None
    ensures h.state.Offer? ==> !HasChan(h)
    ensures Next(h, op).Some? ==> !Next(h, op).value.state.Offer?
  {
  }

  /** `enter` pushes the `Rec` itself; `ret` on `Var(0)` pops it back, so
      `ret().enter()` re-enters the loop body with the environment it had. */
  lemma RetThenEnterReentersBody(body: Proto, e: seq<Proto>)
    ensures Next(Handle(Rec(body), e), EnterOp)
         == if body.Offer? then None else Some(Handle(body, [Rec(body)] + e))
    ensures Run(Handle(Var(0), [Rec(body)] + e), [RetOp, EnterOp])
         == if body.Offer? then None else Some(Handle(body, [Rec(body)] + e))
  {
    var h := Handle(Var(0), [Rec(body)] + e);
    assert Next(h, RetOp) == Some(Handle(Rec(body), e));
    assert [RetOp, EnterOp][1..] == [EnterOp];
    assert [EnterOp][1..] == [];
  }

  function RetTimes(k: nat): (ops: seq<Op>)
    ensures |ops| == k && forall i :: 0 <= i < k ==> ops[i] == RetOp
  {
    if k == 0 then [] else [RetOp] + RetTimes(k - 1)
  }

  /** A back-reference `Var(k)` resolved under an environment of at least `k+1`
      loops: `k+1` calls of `ret` land on the `k`-th enclosing loop (counting the
      innermost as 0) and drop every inner level. */
  lemma {:induction false} RetResolvesJump(k: nat, e: seq<Proto>)
    requires k < |e|
    ensures Run(Handle(Var(k), e), RetTimes(k + 1))
         == if HasChan(Handle(e[k], e[k + 1..])) then Some(Handle(e[k], e[k + 1..])) else None
  {
    var ops := RetTimes(k + 1);
    assert ops[0] == RetOp && ops[1..] == RetTimes(k);
    if k == 0 {
      assert ops[1..] == [];
    } else {
      assert Next(Handle(Var(k), e), RetOp) == Some(Handle(Var(k - 1), e[1..]));
      RetResolvesJump(k - 1, e[1..]);
      assert e[1..][k - 1] == e[k] && e[1..][k..] == e[k + 1..];
    }
  }

  /** What the body of `ret` on `Var<Succ<T>>` constructs (sesstypes.hh:168):
      a handle at the enclosing entry `P`, against the declared `Var<T>`. */
  function RetAsConstructed(h: Handle): Option<Handle>
  {
    if h.state.Var? && h.env != [] then Some(Handle(h.env[0], h.env[1..])) else None
  }

  /** The declared and constructed handle types of `ret` disagree whenever the
      index is positive and the enclosing entry is a loop, as every entry `enter`
      pushes is, so the body of that specialisation is ill-formed there. */
  lemma RetConstructedDisagreesWithDeclared(n: nat, e: seq<Proto>)
    requires n > 0 && e != [] && e[0].Rec?
    ensures RetAsConstructed(Handle(Var(n), e)).Some? && Declared(Handle(Var(n), e), RetOp).Some?
    ensures RetAsConstructed(Handle(Var(n), e)) != Declared(Handle(Var(n), e), RetOp)
  {
  }

  /** No `Var(n)` refers past the `depth` loops enclosing it. */
  predicate Closed(p: Proto, depth: nat) {
    match p
    case End => true
    case Send(_, k) => Closed(k, depth)
    case Recv(_, k) => Closed(k, depth)
    case Rec(b) => Closed(b, depth + 1)
    case Var(n) => n < depth
    case Choose(a, b) => Closed(a, depth) && Closed(b, depth)
    case Offer(a, b) => Closed(a, depth) && Closed(b, depth)
  }

  /** A handle whose state is closed under its environment, and whose every
      environment entry is a `Rec` pushed by `enter`, closed under the entries below it. */
  predicate WellFormed(h: Handle) {
    && Closed(h.state, |h.env|)
    && forall i :: 0 <= i < |h.env| ==> h.env[i].Rec? && Closed(h.env[i], |h.env| - i - 1)
  }

  /** Every step keeps a handle well formed. */
  lemma StepPreservesWellFormed(h: Handle, op: Op)
    requires WellFormed(h) && Next(h, op).Some?
    ensures WellFormed(Next(h, op).value)
  {
    var h' := Next(h, op).value;
    match h.state
    case Rec(b) =>
      assert h'.env == [h.state] + h.env;
      forall i | 0 <= i < |h'.env|
        ensures h'.env[i].Rec? && Closed(h'.env[i], |h'.env| - i - 1)
      {
        if i > 0 { assert h'.env[i] == h.env[i - 1]; }
      }
    case Var(n) =>
      assert h'.env == h.env[1..];
      forall i | 0 <= i < |h'.env|
        ensures h'.env[i].Rec? && Closed(h'.env[i], |h'.env| - i - 1)
      {
        assert h'.env[i] == h.env[i + 1];
      }
    case _ =>
  }

  /** In a well-formed handle `ret` is never missing: a `Var` state always has a
      non-empty environment, so a `ret` specialisation matches. */
  lemma WellFormedRetAvailable(h: Handle)
    requires WellFormed(h) && h.state.Var?
    ensures h.env != [] && Next(h, RetOp).Some?
  {
    if h.state.index > 0 {
      assert |h.env[1..]| == |h.env| - 1 > 0;
    }
  }

  lemma {:induction false} ClosedDual(p: Proto, depth: nat)
    ensures Closed(Dual(p), depth) == Closed(p, depth)
  {
    match p
    case End =>
    case Send(_, k) => ClosedDual(k, depth);
    case Recv(_, k) => ClosedDual(k, depth);
    case Rec(b) => ClosedDual(b, depth + 1);
    case Var(_) =>
    case Choose(_, _) =>
    case Offer(_, _) =>
  }

  /** The state of the peer: the dual state under the dual environment. */
  function DualHandle(h: Handle): (d: Handle)
    ensures |d.env| == |h.env|
  {
    Handle(Dual(h.state), seq(|h.env|, i requires 0 <= i < |h.env| => Dual(h.env[i])))
  }

  /** The operation the peer performs at the same point: a send meets a receive. */
  function Mirror(op: Op): Op {
    match op
    case SendOp => RecvOp
    case RecvOp => SendOp
    case _ => op
  }

  /** The peer of a handle has a `Chan` class exactly when the handle is neither at
      `Choose` (its peer would be at `Offer`) nor a `Var` under the default
      environment. So both ends of a connection exist exactly when neither is at a
      choice. */
  lemma HasChanDual(h: Handle)
    ensures HasChan(DualHandle(h)) <==> !h.state.Choose? && !(h.state.Var? && h.env == [])
    ensures HasChan(h) && HasChan(DualHandle(h)) <==> HasChan(h) && !h.state.Choose?
  {
    match h.state
    case Choose(_, _) =>
    case Offer(_, _) =>
    case _ =>
  }

  /** Duality makes the two ends of a connection step in lockstep: whatever a
      non-choice step does to one end, the mirrored step does to the peer, unless
      it leads the peer into a state with no `Chan` class. */
  lemma DualStepsInLockstep(h: Handle, op: Op)
    requires Next(h, op).Some? && op != Choose1Op && op != Choose2Op
    ensures Next(DualHandle(h), Mirror(op))
         == if HasChan(DualHandle(Next(h, op).value)) then Some(DualHandle(Next(h, op).value)) else None
  {
    var d := DualHandle(h);
    var h' := Next(h, op).value;
    match h.state
    case Rec(b) =>
      assert DualHandle(h').env == [Dual(h.state)] + d.env;
    case Var(n) =>
      assert DualHandle(h').env == d.env[1..];
    case _ =>
  }

  /** The peer of a `Choose` end is at `Offer`: it has no `Chan` class, so it can
      neither be built nor make a move. */
  lemma ChoosePeerIsStuck(h: Handle, op: Op)
    requires h.state.Choose?
    ensures !HasChan(DualHandle(h)) && Next(DualHandle(h), op) == None
  {
  }
}
