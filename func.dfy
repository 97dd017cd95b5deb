/** src/excursor/func.py: `Maybe`, an optional value with `map`, `flat_map`
    and an in-place `do`, and `Iter`, a sequence with `map`, `take`, `drop`
    and an in-place `where`. The generators `Iter` builds are modelled by
    the finite sequences they would yield. */
module Func {
  import opened Wrappers
  import opened Seqs

  /** The exceptions `take` and `drop` raise on a bad count. */
  datatype FuncError = TakeBelowOne | DropNegative

  /** `map` on the wrapped value: `None` stays `None` without calling `fun`;
      otherwise whatever `fun` returns, `None` included, is wrapped. */
  function MapValue<T, R>(m: Option<T>, fun: T -> Option<R>): (r: Option<R>)
    ensures m.None? ==> r.None?
    ensures m.Some? ==> r == fun(m.value)
  {
    match m
    case None => None
    case Some(v) => fun(v)
  }

  /** A chain of `map` calls, the first function applied first. */
  function MapAll<T>(m: Option<T>, funs: seq<T -> Option<T>>): Option<T>
    decreases |funs|
  {
    if |funs| == 0 then m else MapAll(MapValue(m, funs[0]), funs[1..])
  }

  /** Once a function in a chain of `map` calls gives `None`, every later
      call is skipped and the chain ends in `None`. */
  lemma {:induction false} NoneShortCircuits<T>(m: Option<T>, funs: seq<T -> Option<T>>, k: nat)
    requires k <= |funs|
    requires MapAll(m, funs[..k]) == None
    ensures MapAll(m, funs) == None
    decreases k
  {
    if k == 0 {
      assert m == None;
      NoneStaysNone(funs);
    } else {
      assert funs[..k][1..] == funs[1..][..k - 1];
      NoneShortCircuits(MapValue(m, funs[0]), funs[1..], k - 1);
    }
  }

  lemma {:induction false} NoneStaysNone<T>(funs: seq<T -> Option<T>>)
    ensures MapAll(None, funs) == None
    decreases |funs|
  {
    if |funs| > 0 {
      NoneStaysNone(funs[1..]);
    }
  }

  /** Mapping twice is mapping once with the second function applied to
      what the first one gives. */
  lemma MapCompose<T>(m: Option<T>, f: T -> Option<T>, g: T -> Option<T>)
    ensures MapValue(MapValue(m, f), g) == MapValue(m, x => MapValue(f(x), g))
  {
  }

  /** The example at the bottom of the module: 3 doubled, plus 5, is 11;
      `doubler` doubles 11, which is at least 10, and 10 more gives 32. */
  lemma ModuleExample()
    ensures MapAll(Some(3), [x => Some(x * 2), y => Some(y + 5)]) == Some(11)
    ensures MapAll(Some(11), [(x: int) => if x < 10 then None else Some(2 * x), y => Some(y + 10)]) == Some(32)
  {
  }

  /** The `Maybe` test: 10 doubled plus 5 is 25, and a function giving
      `None` makes the rest of the chain `None`. */
  lemma MaybeTest()
    ensures MapAll(Some(10), [x => Some(x * 2), y => Some(y + 5)]) == Some(25)
    ensures MapAll(Some(25), [(x: int) => None, y => Some(y + 10)]) == None
  {
    var funs: seq<int -> Option<int>> := [(x: int) => None, y => Some(y + 10)];
    assert funs[..1][1..] == [];
    NoneShortCircuits(Some(25), funs, 1);
  }

  class Maybe<T> {
    var inner: Option<T>

    constructor (inner: Option<T>)
      ensures this.inner == inner
    {
      this.inner := inner;
    }

    /** `map`: a new `Maybe`, with `self` left alone. */
    method Map<R>(fun: T -> Option<R>) returns (r: Maybe<R>)
      ensures fresh(r) && r.inner == MapValue(inner, fun)
    {
      match inner
      case None => r := new Maybe(None);
      case Some(v) => r := new Maybe(fun(v));
    }

    /** `flat_map`: on a value, the very `Maybe` that `fun` returns; on
        `None`, a new empty one. */
    method FlatMap<R>(fun: T -> Maybe<R>) returns (r: Maybe<R>)
      ensures inner.Some? ==> r == fun(inner.value)
      ensures inner.None? ==> fresh(r) && r.inner == None
    {
      match inner
      case None => r := new Maybe(None);
      case Some(v) => r := fun(v);
    }

    /** `do`: on a value, `fn` replaces it in place and `self` is returned;
        on `None`, a new empty `Maybe` and `self` is untouched. */
    method Do(fn: T -> T) returns (r: Maybe<T>)
      modifies this
      ensures old(inner).Some? ==> r == this && inner == Some(fn(old(inner).value))
      ensures old(inner).None? ==> fresh(r) && r.inner == None && inner == None
    {
      match inner
      case None => r := new Maybe(None);
      case Some(arg) =>
        inner := Some(fn(arg));
        r := this;
    }
  }

  /** `map` on an `Iter`: `fun` on each element, in order. */
  function MapSeq<T, R>(s: seq<T>, fun: T -> R): (r: seq<R>)
    ensures |r| == |s|
    ensures forall i :: 0 <= i < |s| ==> r[i] == fun(s[i])
  {
    seq(|s|, i requires 0 <= i < |s| => fun(s[i]))
  }

  /** `take` with a count: the elements whose index is below it. */
  function Prefix<T>(s: seq<T>, until: int): (r: seq<T>)
    requires until >= 1
    ensures |r| == Min(until, |s|)
    ensures forall i :: 0 <= i < |r| ==> r[i] == s[i]
  {
    s[..Min(until, |s|)]
  }

  /** `drop` with a count: the elements from that index on. */
  function Suffix<T>(s: seq<T>, until: int): (r: seq<T>)
    requires until >= 0
    ensures |r| == |s| - Min(until, |s|)
    ensures forall i :: 0 <= i < |r| ==> r[i] == s[i + Min(until, |s|)]
  {
    s[Min(until, |s|)..]
  }

  /** For a count `take` accepts, `take` then `drop` of the same count
      gives the sequence back. */
  lemma TakeDropCount<T>(s: seq<T>, k: int)
    requires k >= 1
    ensures Prefix(s, k) + Suffix(s, k) == s
  {
    assert s[..Min(k, |s|)] + s[Min(k, |s|)..] == s;
  }

  /** How many elements `take` with a predicate yields: those before the
      first element the predicate holds on. */
  function Taken<T>(s: seq<T>, fn: T -> bool): (k: nat)
    ensures k <= |s|
    ensures forall i :: 0 <= i < k ==> !fn(s[i])
    ensures k < |s| ==> fn(s[k])
    decreases |s|
  {
    if |s| == 0 || fn(s[0]) then 0 else 1 + Taken(s[1..], fn)
  }

  /** How many elements `drop` with a predicate removes: those before the
      first element the predicate fails on. */
  function Dropped<T>(s: seq<T>, fn: T -> bool): (k: nat)
    ensures k <= |s|
    ensures forall i :: 0 <= i < k ==> fn(s[i])
    ensures k < |s| ==> !fn(s[k])
    decreases |s|
  {
    if |s| == 0 || !fn(s[0]) then 0 else 1 + Dropped(s[1..], fn)
  }

  /** The predicate that holds exactly where `fn` fails. */
  function Negated<T>(fn: T -> bool): T -> bool {
    x => !fn(x)
  }

  /** `take(fn)` stops where `drop` with the negated predicate starts, so
      the two split the sequence; `take` and `drop` with the same predicate
      do not, whatever the documentation of `take` says. */
  lemma TakeDropPredicate<T>(s: seq<T>, fn: T -> bool)
    ensures Taken(s, fn) == Dropped(s, Negated(fn))
    ensures s[..Taken(s, fn)] + s[Dropped(s, Negated(fn))..] == s
  {
    var g := Negated(fn);
    forall i | 0 <= i < |s| ensures g(s[i]) == !fn(s[i]) { }
  }

  /** Both `take` and `drop` with a predicate that holds everywhere give
      nothing, so together they lose the element. */
  lemma SamePredicateLoses()
    ensures Taken([1], (x: int) => true) == 0
    ensures Dropped([1], (x: int) => true) == 1
  {
  }

  /** `drop(fn)` stops consulting `fn` once it failed: later elements on
      which it holds are kept. */
  lemma DropKeepsLaterMatches()
    ensures var s := [1, 5, 2]; s[Dropped(s, (x: int) => x < 3)..] == [5, 2]
  {
    var s := [1, 5, 2];
    var fn := (x: int) => x < 3;
    assert Dropped(s[1..], fn) == 0;
  }

  /** `where`: the elements `select` holds on, in order. */
  function Filter<T(==)>(s: seq<T>, select: T -> bool): (r: seq<T>)
    ensures |r| <= |s|
    ensures forall i :: 0 <= i < |r| ==> select(r[i]) && r[i] in s
    decreases |s|
  {
    if |s| == 0 then []
    else if select(s[0]) then [s[0]] + Filter(s[1..], select)
    else Filter(s[1..], select)
  }

  /** Nothing `select` holds on is lost. */
  lemma {:induction false} FilterKeeps<T>(s: seq<T>, select: T -> bool, x: T)
    requires x in s && select(x)
    ensures x in Filter(s, select)
    decreases |s|
  {
    if s[0] != x {
      FilterKeeps(s[1..], select, x);
    }
  }

  /** `where` keeps the order: filtering a concatenation filters each part
      and keeps the parts in place. */
  lemma {:induction false} FilterAppend<T>(s: seq<T>, t: seq<T>, select: T -> bool)
    ensures Filter(s + t, select) == Filter(s, select) + Filter(t, select)
    decreases |s|
  {
    if |s| == 0 {
      assert s + t == t;
    } else {
      FilterAppend(s[1..], t, select);
      assert (s + t)[1..] == s[1..] + t;
    }
  }

  /** Filtering twice with the same predicate changes nothing more. */
  lemma {:induction false} FilterIdempotent<T>(s: seq<T>, select: T -> bool)
    ensures Filter(Filter(s, select), select) == Filter(s, select)
    decreases |s|
  {
    if |s| > 0 {
      FilterIdempotent(s[1..], select);
      if select(s[0]) {
        assert ([s[0]] + Filter(s[1..], select))[1..] == Filter(s[1..], select);
      }
    }
  }

  class Iter<T(==)> {
    var inner: seq<T>

    constructor (inner: seq<T>)
      ensures this.inner == inner
    {
      this.inner := inner;
    }

    /** `map`: a new `Iter` over the mapped elements. */
    method Map<R>(fun: T -> R) returns (r: Iter<R>)
      ensures fresh(r) && r.inner == MapSeq(inner, fun)
    {
      r := new Iter(MapSeq(inner, fun));
    }

    /** `take` with a count: a count below one raises. */
    method TakeCount(until: int) returns (r: Result<Iter<T>, FuncError>)
      ensures r.Failure? <==> until < 1
      ensures r.Failure? ==> r.error == TakeBelowOne
      ensures r.Success? ==> fresh(r.value) && r.value.inner == Prefix(inner, until)
    {
      if until < 1 {
        return Failure(TakeBelowOne);
      }
      var it := new Iter(Prefix(inner, until));
      r := Success(it);
    }

    /** `take` with a predicate: the generator yields until the first
        element the predicate holds on. */
    method TakeUntil(fn: T -> bool) returns (r: Iter<T>)
      ensures fresh(r) && r.inner == inner[..Taken(inner, fn)]
    {
      var s := inner;
      var out: seq<T> := [];
      var i := 0;
      while i < |s|
        invariant 0 <= i <= Taken(s, fn)
        invariant out == s[..i]
      {
        if fn(s[i]) {
          break;
        }
        out := out + [s[i]];
        i := i + 1;
      }
      r := new Iter(out);
    }

    /** `drop` with a count: a negative count raises. */
    method DropCount(until: int) returns (r: Result<Iter<T>, FuncError>)
      ensures r.Failure? <==> until < 0
      ensures r.Failure? ==> r.error == DropNegative
      ensures r.Success? ==> fresh(r.value) && r.value.inner == Suffix(inner, until)
    {
      if until < 0 {
        return Failure(DropNegative);
      }
      var it := new Iter(Suffix(inner, until));
      r := Success(it);
    }

    /** `drop` with a predicate: the generator's `matched` flag is set by
        the predicate until it first fails and is not consulted after. */
    method DropWhile(fn: T -> bool) returns (r: Iter<T>)
      ensures fresh(r) && r.inner == inner[Dropped(inner, fn)..]
    {
      var s := inner;
      var out: seq<T> := [];
      var matched := true;
      var i := 0;
      while i < |s|
        invariant 0 <= i <= |s|
        invariant matched ==> out == [] && i <= Dropped(s, fn)
        invariant !matched ==> Dropped(s, fn) < i && out == s[Dropped(s, fn)..i]
      {
        if matched {
          matched := fn(s[i]);
          if !matched {
            assert Dropped(s, fn) == i;
          }
        }
        if !matched {
          assert s[Dropped(s, fn)..i + 1] == s[Dropped(s, fn)..i] + [s[i]];
          out := out + [s[i]];
        }
        i := i + 1;
      }
      r := new Iter(out);
    }

    /** `where`: replaces the elements by those `select` holds on and
        returns `self`. */
    method Where(select: T -> bool) returns (r: Iter<T>)
      modifies this
      ensures r == this && inner == Filter(old(inner), select)
    {
      inner := Filter(inner, select);
      r := this;
    }
  }
}
