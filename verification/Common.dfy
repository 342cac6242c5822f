/** Vocabulary shared by the models: optional values and histories read from their last event. */
module Common {

  /** A second, in the nanoseconds of Go's time.Duration. */
  const SECOND := 1_000_000_000

  datatype Option<+T> = None | Some(value: T)

  /** A history without its last event. */
  function Front<T>(s: seq<T>): (r: seq<T>)
    requires s != []
    ensures |r| == |s| - 1
  {
    s[..|s| - 1]
  }

  function Last<T>(s: seq<T>): T
    requires s != []
  {
    s[|s| - 1]
  }

  function Min(a: int, b: int): int {
    if a < b then a else b
  }

  function Max(a: int, b: int): int {
    if a < b then b else a
  }

  /** 1 when the condition holds, for counting. */
  function Hit(b: bool): nat {
    if b then 1 else 0
  }

  lemma OneMore(n: int, d: int)
    ensures (n + 1) * d == n * d + d
  {
  }

  /** n times d, by repeated addition: what inductions over counts build up. */
  function Times(n: nat, d: nat): nat {
    if n == 0 then 0 else Times(n - 1, d) + d
  }

  lemma {:induction false} TimesIsProduct(n: nat, d: nat)
    ensures Times(n, d) == n * d
  {
    if n > 0 {
      TimesIsProduct(n - 1, d);
      OneMore(n - 1, d);
    }
  }

  lemma FrontLast<T>(s: seq<T>)
    requires s != []
    ensures s == Front(s) + [Last(s)]
  {
  }

  /** Extending a history by one event and taking it apart again. */
  lemma Extend<T>(s: seq<T>, e: T)
    ensures Front(s + [e]) == s && Last(s + [e]) == e
    ensures forall k | 0 <= k <= |s| :: (s + [e])[..k] == s[..k]
  {
  }
}
