/** Small shared definitions: an optional value, and the integer operators of Java. */
module Common {

  /** A value that may be absent; stands for a Java reference that may be null. */
  datatype Option<+T> = None | Some(value: T) {
    function GetOr(default: T): T {
      match this
      case Some(v) => v
      case None => default
    }
  }

  /**
   * An Android `Context`: a component of an application; every component of
   * one application shares the same application context.
   */
  datatype Context = Context(component: string, application: string) {
    function ApplicationContext(): Context {
      Context(application, application)
    }
  }

  function Min(a: int, b: int): int {
    if a <= b then a else b
  }

  /** Java's `/` on integers: the quotient is truncated toward zero (Dafny's `/` is Euclidean). */
  function TruncDiv(a: int, b: int): (q: int)
    requires b > 0
    ensures a >= 0 ==> 0 <= q * b <= a < q * b + b
    ensures a < 0 ==> q * b - b < a <= q * b <= 0
  {
    if a >= 0 then
      DivBounds(a, b);
      a / b
    else
      DivBounds(-a, b);
      -((-a) / b)
  }

  lemma DivBounds(n: nat, b: int)
    requires b > 0
    ensures 0 <= (n / b) * b <= n < (n / b) * b + b
  {
    var q, m := n / b, n % b;
    assert n == q * b + m && 0 <= m < b;
    assert q >= 0;
  }
}
