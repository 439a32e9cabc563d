/**
 * Java's `Either`: an immutable pair of optional values, built with exactly
 * one side present, that callers query and hand to a consumer.
 */
module Either {
  import opened Wrappers

  datatype Either<A, B> = Either(a: Option<A>, b: Option<B>)

  function Left<A, B>(x: A): (e: Either<A, B>)
    ensures e.a == Some(x) && e.b == None
  {
    Either(Some(x), None)
  }

  function Right<A, B>(y: B): (e: Either<A, B>)
    ensures e.a == None && e.b == Some(y)
  {
    Either(None, Some(y))
  }

  predicate IsLeft<A, B>(e: Either<A, B>) {
    e.a.Some?
  }

  predicate IsRight<A, B>(e: Either<A, B>) {
    e.b.Some?
  }

  /** `getLeft`: the left value, or `NoSuchElement` when the left side is empty. */
  function GetLeft<A, B>(e: Either<A, B>): (r: Result<A>)
    ensures r.Ok? <==> IsLeft(e)
    ensures r.Ok? ==> e.a == Some(r.value)
    ensures r.Err? ==> r.error == NoSuchElement
  {
    match e.a
    case Some(x) => Ok(x)
    case None => Err(NoSuchElement)
  }

  /** `getRight`: the right value, or `NoSuchElement` when the right side is empty. */
  function GetRight<A, B>(e: Either<A, B>): (r: Result<B>)
    ensures r.Ok? <==> IsRight(e)
    ensures r.Ok? ==> e.b == Some(r.value)
    ensures r.Err? ==> r.error == NoSuchElement
  {
    match e.b
    case Some(y) => Ok(y)
    case None => Err(NoSuchElement)
  }

  /** `acceptLeftIfPresent`: the values the consumer receives, in call order. */
  function AcceptLeftIfPresent<A, B>(e: Either<A, B>): (calls: seq<A>)
    ensures |calls| <= 1
    ensures |calls| == 1 <==> IsLeft(e)
    ensures IsLeft(e) ==> calls == [e.a.value]
  {
    match e.a
    case Some(x) => [x]
    case None => []
  }

  /** `acceptRightIfPresent`: the values the consumer receives, in call order. */
  function AcceptRightIfPresent<A, B>(e: Either<A, B>): (calls: seq<B>)
    ensures |calls| <= 1
    ensures |calls| == 1 <==> IsRight(e)
    ensures IsRight(e) ==> calls == [e.b.value]
  {
    match e.b
    case Some(y) => [y]
    case None => []
  }

  /** A value either factory can build: exactly one side is present. */
  predicate Constructed<A, B>(e: Either<A, B>) {
    IsLeft(e) != IsRight(e)
  }

  /**
   * `left(x)` is left and not right, its left value is `x` and reading its
   * right side fails; `right(y)` is the mirror image. Both hand exactly one
   * value to exactly one of the two consumers.
   */
  lemma FactoriesSpec<A, B>(x: A, y: B)
    ensures var l: Either<A, B> := Left(x);
      Constructed(l) && IsLeft(l) && !IsRight(l) && GetLeft(l) == Ok(x) && GetRight(l) == Err(NoSuchElement)
      && AcceptLeftIfPresent(l) == [x] && AcceptRightIfPresent(l) == []
    ensures var r: Either<A, B> := Right(y);
      Constructed(r) && IsRight(r) && !IsLeft(r) && GetRight(r) == Ok(y) && GetLeft(r) == Err(NoSuchElement)
      && AcceptRightIfPresent(r) == [y] && AcceptLeftIfPresent(r) == []
  {
  }

  /** Every constructed value came from one of the two factories. */
  lemma ConstructedIsLeftOrRight<A, B>(e: Either<A, B>)
    requires Constructed(e)
    ensures (IsLeft(e) && e == Left(e.a.value)) || (IsRight(e) && e == Right(e.b.value))
  {
  }

  /** Of a constructed value, the two consumers together receive exactly one value. */
  lemma ExactlyOneConsumerCalled<A, B>(e: Either<A, B>)
    requires Constructed(e)
    ensures |AcceptLeftIfPresent(e)| + |AcceptRightIfPresent(e)| == 1
  {
  }
}
