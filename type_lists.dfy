/** The type-pack utilities of concurrentmedium.hh (duplicated in test.cc): the
    membership fold `OneOf` and the order-preserving deduplication `Unique`, with
    its two entry points `UniqueVariant<Ts...>` and `MakeUniqueVariant<variant<Ts...>>`.
    A type pack is a sequence; a type is any value with equality. */
module TypeLists {

  /** No element occurs twice. */
  predicate NoDup<T(==)>(s: seq<T>) {
    forall i, j :: 0 <= i < j < |s| ==> s[i] != s[j]
  }

  /** `OneOf<T, variant<Ts...>>`: the fold `(std::is_same_v<T, Ts> || ...)`. */
  function OneOf<T(==)>(t: T, ts: seq<T>): (r: bool)
    ensures r <==> t in ts
  {
    if ts == [] then false
    else
      assert ts == [ts[0]] + ts[1..];
      ts[0] == t || OneOf(t, ts[1..])
  }

  /** `Unique<variant<Ts...>, U, Us...>`: an accumulated pack `acc` and the rest
      `us`; each `U` not yet in the accumulator is appended at its end. */
  function Unique<T(==)>(acc: seq<T>, us: seq<T>): seq<T>
    decreases |us|
  {
    if us == [] then acc
    else if OneOf(us[0], acc) then Unique(acc, us[1..])
    else Unique(acc + [us[0]], us[1..])
  }

  /** `UniqueVariant<Ts...>`, which is also what `MakeUniqueVariant<variant<Ts...>>` yields. */
  function UniqueVariant<T(==)>(ts: seq<T>): seq<T> {
    Unique([], ts)
  }

  /** Position of the first occurrence of `x` in `s`. */
  function FirstIndex<T(==)>(s: seq<T>, x: T): (k: nat)
    requires x in s
    ensures k < |s| && s[k] == x && x !in s[..k]
  {
    if s[0] == x then 0
    else
      var k' := FirstIndex(s[1..], x);
      assert s[..k' + 1] == [s[0]] + s[1..][..k'];
      1 + k'
  }

  lemma FirstIndexUnique<T>(s: seq<T>, x: T, k: nat)
    requires k < |s| && s[k] == x && x !in s[..k]
    ensures FirstIndex(s, x) == k
  {
  }

  lemma FirstIndexAppend<T>(a: seq<T>, b: seq<T>, x: T)
    requires x in a + b
    ensures x in a ==> FirstIndex(a + b, x) == FirstIndex(a, x)
    ensures x !in a ==> x in b && FirstIndex(a + b, x) == |a| + FirstIndex(b, x)
  {
    if x in a {
      var k := FirstIndex(a, x);
      assert (a + b)[..k] == a[..k];
      FirstIndexUnique(a + b, x, k);
    } else {
      assert x in b;
      var k := FirstIndex(b, x);
      assert (a + b)[..|a| + k] == a + b[..k];
      FirstIndexUnique(a + b, x, |a| + k);
    }
  }

  lemma {:induction false} UniqueElements<T>(acc: seq<T>, us: seq<T>)
    ensures forall x :: x in Unique(acc, us) <==> x in acc || x in us
    decreases |us|
  {
    if us != [] {
      assert us == [us[0]] + us[1..];
      if us[0] in acc {
        UniqueElements(acc, us[1..]);
      } else {
        UniqueElements(acc + [us[0]], us[1..]);
      }
    }
  }

  lemma {:induction false} UniqueNoDup<T>(acc: seq<T>, us: seq<T>)
    requires NoDup(acc)
    ensures NoDup(Unique(acc, us))
    decreases |us|
  {
    if us != [] {
      if us[0] in acc {
        UniqueNoDup(acc, us[1..]);
      } else {
        UniqueNoDup(acc + [us[0]], us[1..]);
      }
    }
  }

  /** Dropping a `u` that the accumulator already holds shifts the first index of
      every element outside the accumulator by one and no other. */
  lemma FirstIndexSkip<T>(acc: seq<T>, u: T, rest: seq<T>, x: T)
    requires u in acc && x in acc + rest
    ensures x in acc + ([u] + rest)
    ensures (x in acc) <==> FirstIndex(acc + rest, x) < |acc|
    ensures FirstIndex(acc + ([u] + rest), x) == FirstIndex(acc + rest, x) + (if x in acc then 0 else 1)
  {
    FirstIndexAppend(acc, rest, x);
    FirstIndexAppend(acc, [u] + rest, x);
    if x !in acc {
      assert ([u] + rest)[1..] == rest;
    }
  }

  /** Every element of `r` occurs in `s`, and `r` lists them in the order of their
      first occurrence in `s`. */
  ghost predicate FirstOccurrenceOrdered<T>(s: seq<T>, r: seq<T>) {
    && (forall x :: x in r ==> x in s)
    && forall i, j :: 0 <= i < j < |r| ==> FirstIndex(s, r[i]) < FirstIndex(s, r[j])
  }

  /** A duplicate-free pack is in the order of its own first occurrences. */
  lemma DistinctOrdered<T>(acc: seq<T>)
    requires NoDup(acc)
    ensures FirstOccurrenceOrdered(acc, acc)
  {
    forall i | 0 <= i < |acc| ensures FirstIndex(acc, acc[i]) == i {
      FirstIndexUnique(acc, acc[i], i);
    }
  }

  /** Inserting a `u` that the accumulator already holds keeps the order of the
      elements taken from `acc + rest`. */
  lemma OrderedAfterSkip<T>(acc: seq<T>, u: T, rest: seq<T>, r: seq<T>)
    requires u in acc && FirstOccurrenceOrdered(acc + rest, r)
    ensures FirstOccurrenceOrdered(acc + ([u] + rest), r)
  {
    forall x | x in r ensures x in acc + ([u] + rest) {
      FirstIndexSkip(acc, u, rest, x);
    }
    forall i, j | 0 <= i < j < |r|
      ensures FirstIndex(acc + ([u] + rest), r[i]) < FirstIndex(acc + ([u] + rest), r[j])
    {
      FirstIndexSkip(acc, u, rest, r[i]);
      FirstIndexSkip(acc, u, rest, r[j]);
    }
  }

  /** The result lists elements in the order of their first occurrence in `acc + us`. */
  lemma {:induction false} UniqueFirstOccurrenceOrder<T>(acc: seq<T>, us: seq<T>)
    requires NoDup(acc)
    ensures FirstOccurrenceOrdered(acc + us, Unique(acc, us))
    decreases |us|
  {
    if us == [] {
      assert acc + us == acc;
      DistinctOrdered(acc);
    } else if us[0] in acc {
      var rest := us[1..];
      assert us == [us[0]] + rest;
      UniqueFirstOccurrenceOrder(acc, rest);
      OrderedAfterSkip(acc, us[0], rest, Unique(acc, rest));
    } else {
      UniqueNoDupStep(acc, us[0]);
      UniqueFirstOccurrenceOrder(acc + [us[0]], us[1..]);
      assert (acc + [us[0]]) + us[1..] == acc + us;
    }
  }

  /** Appending an element the accumulator lacks keeps it duplicate-free. */
  lemma UniqueNoDupStep<T>(acc: seq<T>, u: T)
    requires NoDup(acc) && u !in acc
    ensures NoDup(acc + [u])
  {
  }

  /** On a pack without duplicates deduplication changes nothing. */
  lemma {:induction false} UniqueOfDistinct<T>(acc: seq<T>, us: seq<T>)
    requires NoDup(acc + us)
    ensures Unique(acc, us) == acc + us
    decreases |us|
  {
    if us != [] {
      assert us[0] == (acc + us)[|acc|];
      assert us[0] !in acc by {
        forall i | 0 <= i < |acc| ensures acc[i] != us[0] {
          assert acc[i] == (acc + us)[i];
        }
      }
      assert (acc + [us[0]]) + us[1..] == acc + us;
      UniqueOfDistinct(acc + [us[0]], us[1..]);
    }
  }

  /** `UniqueVariant` keeps exactly the elements of its input, once each, in the
      order of their first occurrence, and is the identity on duplicate-free packs. */
  lemma UniqueVariantSpec<T>(ts: seq<T>)
    ensures NoDup(UniqueVariant(ts))
    ensures forall x :: x in UniqueVariant(ts) <==> x in ts
    ensures var r := UniqueVariant(ts);
      forall i, j :: 0 <= i < j < |r| ==> FirstIndex(ts, r[i]) < FirstIndex(ts, r[j])
    ensures NoDup(ts) ==> UniqueVariant(ts) == ts
  {
    UniqueNoDup([], ts);
    UniqueElements([], ts);
    UniqueFirstOccurrenceOrder([], ts);
    assert [] + ts == ts;
    assert FirstOccurrenceOrdered(ts, UniqueVariant(ts));
    if NoDup(ts) { UniqueOfDistinct([], ts); }
  }

  function Reverse<T>(s: seq<T>): (r: seq<T>)
    ensures |r| == |s|
  {
    if s == [] then [] else Reverse(s[1..]) + [s[0]]
  }

  lemma {:induction false} ReverseElements<T>(s: seq<T>)
    ensures forall x :: x in Reverse(s) <==> x in s
  {
    if s != [] {
      ReverseElements(s[1..]);
      assert s == [s[0]] + s[1..];
    }
  }

  /** One step of `Unique`: an element already accumulated is skipped. */
  lemma UniqueSkip<T>(acc: seq<T>, u: T, us: seq<T>)
    requires u in acc
    ensures Unique(acc, [u] + us) == Unique(acc, us)
  {
    assert ([u] + us)[1..] == us;
  }

  /** One step of `Unique`: a new element is appended to the accumulator. */
  lemma UniqueKeep<T>(acc: seq<T>, u: T, us: seq<T>)
    requires u !in acc
    ensures Unique(acc, [u] + us) == Unique(acc + [u], us)
  {
    assert ([u] + us)[1..] == us;
  }

  /** The second half of test.cc's example: `char, float, char, string` after `int, char`. */
  lemma UniquePatternTail<T>(i: T, c: T, f: T, str: T)
    requires i != c && i != f && i != str && c != f && c != str && f != str
    ensures Unique([i, c], [c, f, c, str]) == [i, c, f, str]
  {
    assert [c, f, c, str] == [c] + [f, c, str];
    UniqueSkip([i, c], c, [f, c, str]);
    assert [f, c, str] == [f] + [c, str];
    UniqueKeep([i, c], f, [c, str]);
    assert [i, c] + [f] == [i, c, f];
    assert [c, str] == [c] + [str];
    UniqueSkip([i, c, f], c, [str]);
    assert [str] == [str] + [];
    UniqueKeep([i, c, f], str, []);
  }

  /** The pattern of test.cc's example, over any four distinct types. */
  lemma UniqueVariantPattern<T>(i: T, c: T, f: T, str: T)
    requires i != c && i != f && i != str && c != f && c != str && f != str
    ensures UniqueVariant([i, c, i, c, f, c, str]) == [i, c, f, str]
  {
    assert [i, c, i, c, f, c, str] == [i] + [c, i, c, f, c, str];
    UniqueKeep([], i, [c, i, c, f, c, str]);
    assert [] + [i] == [i];
    assert [c, i, c, f, c, str] == [c] + [i, c, f, c, str];
    UniqueKeep([i], c, [i, c, f, c, str]);
    assert [i] + [c] == [i, c];
    assert [i, c, f, c, str] == [i] + [c, f, c, str];
    UniqueSkip([i, c], i, [c, f, c, str]);
    UniquePatternTail(i, c, f, str);
  }

  /** test.cc's `UniqueVariant<int, char, int, char, float, char, string>` is
      `variant<int, char, float, string>`. */
  lemma UniqueVariantExample()
    ensures UniqueVariant(["int", "char", "int", "char", "float", "char", "string"])
         == ["int", "char", "float", "string"]
  {
    UniqueVariantPattern("int", "char", "float", "string");
  }
}
