/** Result and Option wrappers shared by the thermostat model.
    `Failure` names the Java exception a failing operation throws. */
module Common {

  datatype Option<+T> = None | Some(value: T)

  /** The kinds of exception the modelled Java code raises. */
  datatype Failure =
    | IllegalArgument   // IllegalArgumentException (also NumberFormatException)
    | XmlPull           // XmlPullParserException: the document breaks the schema
    | NullPointer       // NullPointerException
    | OutOfBounds       // IndexOutOfBounds / StringIndexOutOfBounds

  datatype Result<+T> = Ok(value: T) | Err(error: Failure)

  /** A non-empty sequence is its prefix followed by its last element. */
  lemma SplitLast<T>(s: seq<T>)
    requires s != []
    ensures s == s[..|s| - 1] + [s[|s| - 1]]
  {
  }

  /** The two halves of a concatenation. */
  lemma AppendParts<T>(a: seq<T>, b: seq<T>)
    ensures (a + b)[..|a|] == a && (a + b)[|a|..] == b
  {
  }

  /** Applies `f` to every element in order; the first failure is the
      result. */
  function MapResults<T, U>(xs: seq<T>, f: T -> Result<U>): (r: Result<seq<U>>)
    ensures r.Ok? ==> |r.value| == |xs|
  {
    if xs == [] then Ok([])
    else
      match MapResults(xs[..|xs| - 1], f)
      case Err(e) => Err(e)
      case Ok(v) =>
        match f(xs[|xs| - 1])
        case Err(e) => Err(e)
        case Ok(y) => Ok(v + [y])
  }

  /** Element `i` of a successful mapping is `f` of element `i`. */
  lemma {:induction false} MapResultsAt<T, U>(xs: seq<T>, f: T -> Result<U>, i: nat)
    requires MapResults(xs, f).Ok? && i < |xs|
    ensures f(xs[i]) == Ok(MapResults(xs, f).value[i])
    decreases |xs|
  {
    var n := |xs| - 1;
    if i < n {
      MapResultsAt(xs[..n], f, i);
    }
  }

  /** One failing element makes the whole mapping fail. */
  lemma {:induction false} MapResultsFails<T, U>(xs: seq<T>, f: T -> Result<U>, i: nat)
    requires i < |xs| && f(xs[i]).Err?
    ensures MapResults(xs, f).Err?
    decreases |xs|
  {
    var n := |xs| - 1;
    if i < n {
      MapResultsFails(xs[..n], f, i);
    }
  }

  /** Mapping one more element appends its image. */
  lemma MapResultsStep<T, U>(xs: seq<T>, x: T, f: T -> Result<U>)
    requires MapResults(xs, f).Ok? && f(x).Ok?
    ensures MapResults(xs + [x], f) == Ok(MapResults(xs, f).value + [f(x).value])
  {
    AppendParts(xs, [x]);
  }

  /** An element that fails after a successful prefix decides the failure. */
  lemma MapResultsStepErr<T, U>(xs: seq<T>, x: T, f: T -> Result<U>)
    requires MapResults(xs, f).Ok? && f(x).Err?
    ensures MapResults(xs + [x], f) == Err(f(x).error)
  {
    AppendParts(xs, [x]);
  }

  /** A failing prefix decides the failure of the whole mapping. */
  lemma {:induction false} MapResultsPrefixErr<T, U>(xs: seq<T>, f: T -> Result<U>, k: nat)
    requires k <= |xs| && MapResults(xs[..k], f).Err?
    ensures MapResults(xs, f) == MapResults(xs[..k], f)
    decreases |xs|
  {
    if k < |xs| {
      var n := |xs| - 1;
      assert xs[..n][..k] == xs[..k];
      MapResultsPrefixErr(xs[..n], f, k);
    } else {
      assert xs[..k] == xs;
    }
  }

  /** Taking one more element appends it. */
  lemma ThreeParts<T>(a: seq<T>, b: seq<T>, c: seq<T>)
    ensures (a + b + c)[..|a|] == a && (a + b + c)[|a|..|a| + |b|] == b && (a + b + c)[|a| + |b|..] == c
  {
    AppendParts(a + b, c);
    AppendParts(a, b);
    assert (a + b + c)[|a|..|a| + |b|] == (a + b)[|a|..];
  }

  lemma TakeNext<T>(s: seq<T>, i: nat)
    requires i < |s|
    ensures s[..i + 1] == s[..i] + [s[i]]
  {
  }

  /** The head and tail of a concatenation with a non-empty front. */
  lemma HeadTailAppend<T>(a: seq<T>, b: seq<T>)
    requires a != []
    ensures (a + b)[0] == a[0] && (a + b)[1..] == a[1..] + b
  {
  }

  /** A prefix of a prefix is a prefix. */
  lemma PrefixOfPrefix<T>(s: seq<T>, i: nat, k: nat)
    requires k <= i <= |s|
    ensures s[..i][..k] == s[..k]
  {
  }

  /** Concatenation is associative. */
  lemma AppendAssoc<T>(a: seq<T>, b: seq<T>, c: seq<T>)
    ensures (a + b) + c == a + (b + c)
  {
  }
}
