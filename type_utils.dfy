/** The type-level list utilities of test.cc: `RenameType`, `RenameAllOccurences`,
    `Cat` and `Flatten`. A C++ type is a tree: a plain type is an `Atom`, an
    instance `C<T1, ..., Tn>` of a class template is `Apply("C", [T1, ..., Tn])`.
    A `std::tuple<Ts...>` handled by `Cat` and `FlattenImpl` is the sequence of its
    elements; as a node of a tree it is `Apply(Tuple, ...)`. */
module TypeUtils {

  datatype TypeExpr = Atom(name: string) | Apply(ctor: string, args: seq<TypeExpr>)

  const Tuple: string := "tuple"

  /** `RenameType<A<T...>, B>`: the outermost template replaced by `B`, the
      arguments kept. Only a template instance has a specialisation. */
  function RenameType(t: TypeExpr, b: string): (r: TypeExpr)
    requires t.Apply?
    ensures r.Apply?
  {
    Apply(b, t.args)
  }

  /** Renaming back restores the type, and renaming twice is renaming once. */
  lemma RenameTypeLaws(t: TypeExpr, b: string, c: string)
    requires t.Apply?
    ensures RenameType(RenameType(t, b), t.ctor) == t
    ensures RenameType(RenameType(t, b), c) == RenameType(t, c)
    ensures RenameType(t, b).ctor == b && RenameType(t, b).args == t.args
  {
  }

  /** `RenameAllOccurences<OldType, NewType, T>`: every node built by `OldType`
      becomes a `NewType` node, any other template is kept and searched, and plain
      types are kept. */
  function RenameAll(o: string, n: string, t: TypeExpr): TypeExpr
    decreases t
  {
    match t
    case Atom(_) => t
    case Apply(c, args) => Apply(if c == o then n else c, RenameAllSeq(o, n, args))
  }

  /** The pack expansion `RenameAllOccurencesImpl<OldType, NewType, Ts>::type...`. */
  function RenameAllSeq(o: string, n: string, ts: seq<TypeExpr>): (r: seq<TypeExpr>)
    ensures |r| == |ts| && forall i :: 0 <= i < |ts| ==> r[i] == RenameAll(o, n, ts[i])
    decreases ts
  {
    if ts == [] then [] else [RenameAll(o, n, ts[0])] + RenameAllSeq(o, n, ts[1..])
  }

  /** Some node of the tree is built by template `c`. */
  predicate Mentions(t: TypeExpr, c: string)
    decreases t
  {
    t.Apply? && (t.ctor == c || MentionsSeq(t.args, c))
  }

  predicate MentionsSeq(ts: seq<TypeExpr>, c: string)
    decreases ts
  {
    ts != [] && (Mentions(ts[0], c) || MentionsSeq(ts[1..], c))
  }

  /** The tree with every template name blanked: its shape and its plain types. */
  function Erase(t: TypeExpr): TypeExpr
    decreases t
  {
    match t
    case Atom(_) => t
    case Apply(_, args) => Apply("", EraseSeq(args))
  }

  function EraseSeq(ts: seq<TypeExpr>): (r: seq<TypeExpr>)
    ensures |r| == |ts|
    decreases ts
  {
    if ts == [] then [] else [Erase(ts[0])] + EraseSeq(ts[1..])
  }

  /** The plain types of a tree, left to right. */
  function Leaves(t: TypeExpr): seq<string>
    decreases t
  {
    match t
    case Atom(x) => [x]
    case Apply(_, args) => LeavesSeq(args)
  }

  function LeavesSeq(ts: seq<TypeExpr>): seq<string>
    decreases ts
  {
    if ts == [] then [] else Leaves(ts[0]) + LeavesSeq(ts[1..])
  }

  lemma {:induction false} LeavesSeqAppend(xs: seq<TypeExpr>, ys: seq<TypeExpr>)
    ensures LeavesSeq(xs + ys) == LeavesSeq(xs) + LeavesSeq(ys)
    decreases xs
  {
    if xs == [] {
      assert xs + ys == ys;
    } else {
      assert (xs + ys)[0] == xs[0] && (xs + ys)[1..] == xs[1..] + ys;
      LeavesSeqAppend(xs[1..], ys);
    }
  }

  /** Renaming changes template names only: shape and plain types are kept. */
  lemma {:induction false} RenameAllKeepsShape(o: string, n: string, t: TypeExpr)
    ensures Erase(RenameAll(o, n, t)) == Erase(t)
    ensures Leaves(RenameAll(o, n, t)) == Leaves(t)
    decreases t
  {
    if t.Apply? {
      RenameAllSeqKeepsShape(o, n, t.args);
    }
  }

  lemma {:induction false} RenameAllSeqKeepsShape(o: string, n: string, ts: seq<TypeExpr>)
    ensures EraseSeq(RenameAllSeq(o, n, ts)) == EraseSeq(ts)
    ensures LeavesSeq(RenameAllSeq(o, n, ts)) == LeavesSeq(ts)
    decreases ts
  {
    if ts != [] {
      var r := RenameAllSeq(o, n, ts);
      assert r[0] == RenameAll(o, n, ts[0]) && r[1..] == RenameAllSeq(o, n, ts[1..]);
      RenameAllKeepsShape(o, n, ts[0]);
      RenameAllSeqKeepsShape(o, n, ts[1..]);
    }
  }

  /** Renaming to a different name leaves no node built by the old template. */
  lemma {:induction false} RenameAllRemovesOld(o: string, n: string, t: TypeExpr)
    requires o != n
    ensures !Mentions(RenameAll(o, n, t), o)
    decreases t
  {
    if t.Apply? {
      RenameAllSeqRemovesOld(o, n, t.args);
    }
  }

  lemma {:induction false} RenameAllSeqRemovesOld(o: string, n: string, ts: seq<TypeExpr>)
    requires o != n
    ensures !MentionsSeq(RenameAllSeq(o, n, ts), o)
    decreases ts
  {
    if ts != [] {
      var r := RenameAllSeq(o, n, ts);
      assert r[1..] == RenameAllSeq(o, n, ts[1..]);
      RenameAllRemovesOld(o, n, ts[0]);
      RenameAllSeqRemovesOld(o, n, ts[1..]);
    }
  }

  /** When the new name was not used, renaming back undoes the renaming, so
      no other template is touched. */
  lemma {:induction false} RenameAllRoundTrip(o: string, n: string, t: TypeExpr)
    requires !Mentions(t, n)
    ensures RenameAll(n, o, RenameAll(o, n, t)) == t
    decreases t
  {
    if t.Apply? {
      RenameAllSeqRoundTrip(o, n, t.args);
    }
  }

  lemma {:induction false} RenameAllSeqRoundTrip(o: string, n: string, ts: seq<TypeExpr>)
    requires !MentionsSeq(ts, n)
    ensures RenameAllSeq(n, o, RenameAllSeq(o, n, ts)) == ts
    decreases ts
  {
    if ts != [] {
      var r := RenameAllSeq(o, n, ts);
      assert r[0] == RenameAll(o, n, ts[0]) && r[1..] == RenameAllSeq(o, n, ts[1..]);
      RenameAllRoundTrip(o, n, ts[0]);
      RenameAllSeqRoundTrip(o, n, ts[1..]);
    }
  }

  /** A tree without the old template, or a renaming onto itself, is left as it is. */
  lemma {:induction false} RenameAllIdentity(o: string, n: string, t: TypeExpr)
    requires o == n || !Mentions(t, o)
    ensures RenameAll(o, n, t) == t
    decreases t
  {
    if t.Apply? {
      RenameAllSeqIdentity(o, n, t.args);
    }
  }

  lemma {:induction false} RenameAllSeqIdentity(o: string, n: string, ts: seq<TypeExpr>)
    requires o == n || !MentionsSeq(ts, o)
    ensures RenameAllSeq(o, n, ts) == ts
    decreases ts
  {
    if ts != [] {
      RenameAllIdentity(o, n, ts[0]);
      RenameAllSeqIdentity(o, n, ts[1..]);
      assert ts == [ts[0]] + ts[1..];
    }
  }

  /** `Cat<std::tuple<Ts...>, std::tuple<Us...>, Vs...>`: the first two tuples
      joined, then the rest; a single tuple is the result. */
  function Cat<T>(ts: seq<seq<T>>): seq<T>
    requires |ts| >= 1
    decreases |ts|
  {
    if |ts| == 1 then ts[0] else Cat([ts[0] + ts[1]] + ts[2..])
  }

  /** All tuples' elements in order. */
  function Concat<T>(ts: seq<seq<T>>): seq<T>
    decreases |ts|
  {
    if ts == [] then [] else ts[0] + Concat(ts[1..])
  }

  /** The left fold of `Cat` is the plain concatenation. */
  lemma {:induction false} CatIsConcat<T>(ts: seq<seq<T>>)
    requires |ts| >= 1
    ensures Cat(ts) == Concat(ts)
    decreases |ts|
  {
    if |ts| > 1 {
      var ts' := [ts[0] + ts[1]] + ts[2..];
      CatIsConcat(ts');
      assert ts'[1..] == ts[2..] && ts[1..][1..] == ts[2..];
      assert Concat(ts[1..]) == ts[1] + Concat(ts[2..]);
    }
  }

  lemma Cat3<T>(a: seq<T>, b: seq<T>, c: seq<T>)
    ensures Cat([a, b, c]) == a + b + c
  {
    assert [a, b, c][2..] == [c] && [a + b] + [c] == [a + b, c];
    assert Cat([a, b, c]) == Cat([a + b, c]);
    assert [a + b, c][2..] == [];
    assert Cat([a + b, c]) == Cat([a + b + c]);
  }

  /** Number of nodes of a tree; the measure of `FlattenImpl`. */
  function Size(t: TypeExpr): (k: nat)
    ensures k >= 1
    decreases t
  {
    match t
    case Atom(_) => 1
    case Apply(_, args) => 1 + SizeSeq(args)
  }

  function SizeSeq(ts: seq<TypeExpr>): (k: nat)
    ensures ts != [] ==> SizeSeq(ts[1..]) < k
    ensures ts != [] && ts[0].Apply? ==> SizeSeq(ts[0].args) < k
    decreases ts
  {
    if ts == [] then 0 else Size(ts[0]) + SizeSeq(ts[1..])
  }

  /** `FlattenImpl<std::tuple<T1...>, Ts...>`: the tuple `head` followed by every
      element of `xs`, where a tuple element is replaced by its own flattening. */
  function FlattenImpl(head: seq<TypeExpr>, xs: seq<TypeExpr>): seq<TypeExpr>
    decreases SizeSeq(xs)
  {
    if xs == [] then head
    else if xs[0].Apply? && xs[0].ctor == Tuple then
      Cat([head, FlattenImpl([], xs[0].args), FlattenImpl([], xs[1..])])
    else
      Cat([head, [xs[0]], FlattenImpl([], xs[1..])])
  }

  /** `Flatten<A<Ts...>>`: every `A` below the root renamed to a tuple, the tuples
      flattened, and the result renamed back to `A`. */
  function Flatten(t: TypeExpr): (r: TypeExpr)
    requires t.Apply?
    ensures r.Apply? && r.ctor == t.ctor
  {
    RenameType(Apply(Tuple, FlattenImpl([], [RenameAll(t.ctor, Tuple, t)])), t.ctor)
  }

  /** The elements one argument of an `a` contributes to `Flatten`, read off the
      original tree: an `a` or tuple node is opened, anything else is kept (with
      any `a` inside it turned into a tuple by the renaming pass). */
  function Items(a: string, x: TypeExpr): seq<TypeExpr>
    decreases x
  {
    if x.Apply? && (x.ctor == a || x.ctor == Tuple) then ItemsSeq(a, x.args)
    else [RenameAll(a, Tuple, x)]
  }

  function ItemsSeq(a: string, xs: seq<TypeExpr>): seq<TypeExpr>
    decreases xs
  {
    if xs == [] then [] else Items(a, xs[0]) + ItemsSeq(a, xs[1..])
  }

  /** `FlattenImpl` with its calls of `Cat` written as concatenations. */
  lemma FlattenImplUnfold(head: seq<TypeExpr>, xs: seq<TypeExpr>)
    requires xs != []
    ensures xs[0].Apply? && xs[0].ctor == Tuple ==>
      FlattenImpl(head, xs) == head + FlattenImpl([], xs[0].args) + FlattenImpl([], xs[1..])
    ensures !(xs[0].Apply? && xs[0].ctor == Tuple) ==>
      FlattenImpl(head, xs) == head + [xs[0]] + FlattenImpl([], xs[1..])
  {
    if xs[0].Apply? && xs[0].ctor == Tuple {
      Cat3(head, FlattenImpl([], xs[0].args), FlattenImpl([], xs[1..]));
    } else {
      Cat3(head, [xs[0]], FlattenImpl([], xs[1..]));
    }
  }

  /** How one argument is renamed for `FlattenImpl`: an `a` or tuple node becomes
      a tuple of renamed arguments, any other node is not a tuple. */
  lemma RenamedHead(a: string, x: TypeExpr)
    ensures x.Apply? && (x.ctor == a || x.ctor == Tuple) ==>
      RenameAll(a, Tuple, x) == Apply(Tuple, RenameAllSeq(a, Tuple, x.args))
    ensures !(x.Apply? && (x.ctor == a || x.ctor == Tuple)) ==>
      !(RenameAll(a, Tuple, x).Apply? && RenameAll(a, Tuple, x).ctor == Tuple)
  {
  }

  lemma AppendAssoc<T>(a: seq<T>, b: seq<T>, c: seq<T>)
    ensures a + b + c == a + (b + c)
  {
  }

  lemma {:induction false} FlattenImplItems(a: string, head: seq<TypeExpr>, xs: seq<TypeExpr>)
    ensures FlattenImpl(head, RenameAllSeq(a, Tuple, xs)) == head + ItemsSeq(a, xs)
    decreases SizeSeq(xs)
  {
    var ys := RenameAllSeq(a, Tuple, xs);
    if xs == [] {
      assert head + [] == head;
    } else {
      var x := xs[0];
      var rest := FlattenImpl([], ys[1..]);
      assert ys[1..] == RenameAllSeq(a, Tuple, xs[1..]);
      FlattenImplItems(a, [], xs[1..]);
      assert rest == ItemsSeq(a, xs[1..]);
      FlattenImplUnfold(head, ys);
      RenamedHead(a, x);
      var first := Items(a, x);
      if x.Apply? && (x.ctor == a || x.ctor == Tuple) {
        FlattenImplItems(a, [], x.args);
        assert FlattenImpl(head, ys) == head + first + rest;
      } else {
        assert FlattenImpl(head, ys) == head + first + rest;
      }
      assert ItemsSeq(a, xs) == first + rest;
      AppendAssoc(head, first, rest);
    }
  }

  /** `Flatten` lists the items of its arguments under the outer template. */
  lemma FlattenSpec(t: TypeExpr)
    requires t.Apply?
    ensures Flatten(t) == Apply(t.ctor, ItemsSeq(t.ctor, t.args))
  {
    var a := t.ctor;
    var u := RenameAll(a, Tuple, t);
    assert u == Apply(Tuple, RenameAllSeq(a, Tuple, t.args));
    FlattenImplItems(a, [], t.args);
    FlattenImplUnfold([], [u]);
    assert [u][1..] == [];
    assert [] + ItemsSeq(a, t.args) + [] == ItemsSeq(a, t.args);
  }

  /** An element that `Flatten` under `a` leaves as it is: no `a` or tuple node at
      its root, and no `a` anywhere inside it unless `a` is the tuple itself. */
  predicate FlatItem(a: string, x: TypeExpr) {
    && !(x.Apply? && (x.ctor == a || x.ctor == Tuple))
    && (a == Tuple || !Mentions(x, a))
  }

  lemma {:induction false} ItemsAreFlat(a: string, x: TypeExpr)
    ensures forall y :: y in Items(a, x) ==> FlatItem(a, y)
    decreases x
  {
    if x.Apply? && (x.ctor == a || x.ctor == Tuple) {
      ItemsSeqAreFlat(a, x.args);
    } else if a != Tuple {
      RenameAllRemovesOld(a, Tuple, x);
    }
  }

  lemma {:induction false} ItemsSeqAreFlat(a: string, xs: seq<TypeExpr>)
    ensures forall y :: y in ItemsSeq(a, xs) ==> FlatItem(a, y)
    decreases xs
  {
    if xs != [] {
      ItemsAreFlat(a, xs[0]);
      ItemsSeqAreFlat(a, xs[1..]);
    }
  }

  lemma {:induction false} ItemsSeqOfFlat(a: string, xs: seq<TypeExpr>)
    requires forall i :: 0 <= i < |xs| ==> FlatItem(a, xs[i])
    ensures ItemsSeq(a, xs) == xs
    decreases xs
  {
    if xs != [] {
      RenameAllIdentity(a, Tuple, xs[0]);
      ItemsSeqOfFlat(a, xs[1..]);
      assert xs == [xs[0]] + xs[1..];
    }
  }

  /** The result is flat: no argument is an `a` or a tuple, and `a` occurs only at the root. */
  lemma FlattenIsFlat(t: TypeExpr)
    requires t.Apply?
    ensures forall y :: y in Flatten(t).args ==> FlatItem(t.ctor, y)
  {
    FlattenSpec(t);
    ItemsSeqAreFlat(t.ctor, t.args);
  }

  /** A flat input is returned unchanged. */
  lemma FlattenOfFlat(t: TypeExpr)
    requires t.Apply? && forall i :: 0 <= i < |t.args| ==> FlatItem(t.ctor, t.args[i])
    ensures Flatten(t) == t
  {
    FlattenSpec(t);
    ItemsSeqOfFlat(t.ctor, t.args);
  }

  lemma FlattenIdempotent(t: TypeExpr)
    requires t.Apply?
    ensures Flatten(Flatten(t)) == Flatten(t)
  {
    FlattenIsFlat(t);
    FlattenOfFlat(Flatten(t));
  }

  lemma {:induction false} ItemsKeepLeaves(a: string, x: TypeExpr)
    ensures LeavesSeq(Items(a, x)) == Leaves(x)
    decreases x
  {
    if x.Apply? && (x.ctor == a || x.ctor == Tuple) {
      ItemsSeqKeepLeaves(a, x.args);
    } else {
      RenameAllKeepsShape(a, Tuple, x);
      var r := [RenameAll(a, Tuple, x)];
      assert r[1..] == [];
      assert Leaves(r[0]) + [] == Leaves(r[0]);
    }
  }

  lemma {:induction false} ItemsSeqKeepLeaves(a: string, xs: seq<TypeExpr>)
    ensures LeavesSeq(ItemsSeq(a, xs)) == LeavesSeq(xs)
    decreases xs
  {
    if xs != [] {
      ItemsKeepLeaves(a, xs[0]);
      ItemsSeqKeepLeaves(a, xs[1..]);
      LeavesSeqAppend(Items(a, xs[0]), ItemsSeq(a, xs[1..]));
    }
  }

  /** Flattening keeps the plain types and their left-to-right order. */
  lemma FlattenKeepsLeaves(t: TypeExpr)
    requires t.Apply?
    ensures Leaves(Flatten(t)) == Leaves(t)
  {
    FlattenSpec(t);
    ItemsSeqKeepLeaves(t.ctor, t.args);
  }

  const Int: TypeExpr := Atom("int")
  const Double: TypeExpr := Atom("double")

  /** The `Flatten` cases listed in test.cc's `main`: `tuple<>` stays empty,
      `variant<int, variant<double>>` and `variant<int, variant<variant<double>>>`
      become `variant<int, double>`, `variant<variant<variant<int>>>` becomes
      `variant<int>`, and the flat `variant<int, double>` is unchanged. */
  lemma FlattenExamples()
    ensures Flatten(Apply(Tuple, [])) == Apply(Tuple, [])
    ensures Flatten(Apply("variant", [Int, Apply("variant", [Double])])) == Apply("variant", [Int, Double])
    ensures Flatten(Apply("variant", [Int, Apply("variant", [Apply("variant", [Double])])]))
         == Apply("variant", [Int, Double])
    ensures Flatten(Apply("variant", [Apply("variant", [Apply("variant", [Int])])])) == Apply("variant", [Int])
    ensures Flatten(Apply("variant", [Int])) == Apply("variant", [Int])
    ensures Flatten(Apply("variant", [Int, Double])) == Apply("variant", [Int, Double])
  {
    FlattenSpec(Apply(Tuple, []));
    var v := "variant";
    assert ItemsSeq(v, [Double]) == [Double] && ItemsSeq(v, [Int]) == [Int];
    var d1 := Apply(v, [Double]);
    assert ItemsSeq(v, [d1]) == [Double];
    var d2 := Apply(v, [d1]);
    assert ItemsSeq(v, [d2]) == [Double];
    assert ItemsSeq(v, [Int, d1]) == [Int] + ItemsSeq(v, [d1]);
    assert ItemsSeq(v, [Int, d2]) == [Int] + ItemsSeq(v, [d2]);
    FlattenSpec(Apply(v, [Int, d1]));
    FlattenSpec(Apply(v, [Int, d2]));
    var i1 := Apply(v, [Int]);
    assert ItemsSeq(v, [i1]) == [Int];
    var i2 := Apply(v, [i1]);
    assert ItemsSeq(v, [i2]) == [Int];
    FlattenSpec(Apply(v, [i2]));
    FlattenOfFlat(Apply(v, [Int]));
    FlattenOfFlat(Apply(v, [Int, Double]));
  }

  /** test.cc's `Cat<tuple<int, long>, tuple<string, char>, tuple<double>>`. */
  lemma CatExample()
    ensures Cat([[Int, Atom("long")], [Atom("string"), Atom("char")], [Double]])
         == [Int, Atom("long"), Atom("string"), Atom("char"), Double]
  {
    Cat3([Int, Atom("long")], [Atom("string"), Atom("char")], [Double]);
  }
}
