/** excursor/func.py: the first draft of `Maybe` and `Iter`, with `map` on
    both and `take` on `Iter`. Constructing an `Iter` turns its contents
    into a generator, which is recorded here next to the elements it would
    yield. */
module FuncDraft {
  import opened Wrappers
  import Func
  import Seqs

  datatype Maybe<T> = Maybe(inner: Option<T>)

  /** What `Iter.inner` holds: after construction always a generator. */
  datatype Iter<T> = Iter(items: seq<T>, isGenerator: bool)

  /** The `TypeError` of `len` on a generator. */
  datatype DraftError = NoLength

  /** `Maybe.map`: `None` gives an empty `Maybe` without calling `fun`;
      otherwise `fun`'s result, which may itself be `None`, is wrapped. */
  function Map<T, R>(m: Maybe<T>, fun: T -> Option<R>): (r: Maybe<R>)
    ensures m.inner.None? ==> r.inner.None?
    ensures m.inner.Some? ==> r.inner == fun(m.inner.value)
  {
    match m.inner
    case None => Maybe(None)
    case Some(v) => Maybe(fun(v))
  }

  /** The draft's `map` is the later module's `map` on the wrapped value. */
  lemma MapAgreesWithFunc<T, R>(m: Maybe<T>, fun: T -> Option<R>)
    ensures Map(m, fun).inner == Func.MapValue(m.inner, fun)
  {
  }

  /** The example at the bottom of the module: 10 doubled plus 5 is 25,
      and after a function giving `None` the next `map` is skipped. */
  lemma ModuleExample()
    ensures Map(Map(Maybe(Some(10)), x => Some(x * 2)), y => Some(y + 5)) == Maybe(Some(25))
    ensures Map(Map(Maybe(Some(25)), (x: int) => None), y => Some(y + 10)) == Maybe(None)
  {
  }

  /** `__post_init__`: the contents become a generator. */
  function MakeIter<T>(items: seq<T>): (r: Iter<T>)
    ensures r.items == items && r.isGenerator
  {
    Iter(items, true)
  }

  /** `Iter.map`: a new generator over the mapped elements. */
  function MapIter<T, R>(it: Iter<T>, fun: T -> R): (r: Iter<R>)
    ensures r.isGenerator
    ensures |r.items| == |it.items|
    ensures forall i :: 0 <= i < |it.items| ==> r.items[i] == fun(it.items[i])
  {
    MakeIter(seq(|it.items|, i requires 0 <= i < |it.items| => fun(it.items[i])))
  }

  /** `Iter.take`: it asks for the length of the generator first, which
      raises for every `Iter` that was constructed; had `inner` been a list,
      the first `min(len, num)` elements would be kept. */
  function Take<T>(it: Iter<T>, num: int): (r: Result<Iter<T>, DraftError>)
    ensures r.Failure? <==> it.isGenerator
    ensures r.Success? ==> r.value.items == it.items[..if num <= 0 then 0 else Seqs.Min(num, |it.items|)]
  {
    if it.isGenerator then Failure(NoLength)
    else
      var n := Seqs.Min(|it.items|, num);
      Success(MakeIter(it.items[..if n <= 0 then 0 else n]))
  }

  /** So `take` fails on every `Iter` built by the constructor or by `map`. */
  lemma TakeAlwaysRaises<T, R>(items: seq<T>, fun: T -> R, num: int)
    ensures Take(MakeIter(items), num) == Failure(NoLength)
    ensures Take(MapIter(MakeIter(items), fun), num) == Failure(NoLength)
  {
  }
}
