/** Shared vocabulary: optional values and the text of identifiers. */
module Prelude {

  /** Surrogate keys. The originals are UUIDs; only equality and their text are used. */
  type Id = nat

  datatype Option<+T> = None | Some(value: T) {
    function GetOr(fallback: T): T {
      if Some? then value else fallback
    }
  }

  /** JavaScript's `!text` for an optional string: absent and empty are both falsy. */
  predicate Truthy(text: Option<string>) {
    text.Some? && text.value != ""
  }

  /** A subset has no more elements, and as many only if it is the whole set. */
  lemma {:induction false} SubsetSize<T>(a: set<T>, b: set<T>)
    requires a <= b
    ensures |a| <= |b|
    ensures |a| == |b| <==> a == b
  {
    if a != {} {
      var x :| x in a;
      SubsetSize(a - {x}, b - {x});
      assert a == (a - {x}) + {x} && b == (b - {x}) + {x};
    } else {
      assert b != {} ==> |b| > 0;
    }
  }

  function Digit(n: nat): char
    requires n < 10
  {
    "0123456789"[n]
  }

  /** Decimal text of a number, used for identifiers inside keys and for slug suffixes. */
  function DecimalText(n: nat): (s: string)
    ensures |s| >= 1
    ensures forall i :: 0 <= i < |s| ==> '0' <= s[i] <= '9'
  {
    if n < 10 then [Digit(n)] else DecimalText(n / 10) + [Digit(n % 10)]
  }

  lemma {:induction false} DecimalTextInjective(m: nat, n: nat)
    requires DecimalText(m) == DecimalText(n)
    ensures m == n
  {
    var s, t := DecimalText(m), DecimalText(n);
    assert s[|s| - 1] == Digit(m % 10) && t[|t| - 1] == Digit(n % 10);
    assert m % 10 == n % 10;
    if m >= 10 && n >= 10 {
      assert s[..|s| - 1] == DecimalText(m / 10);
      assert t[..|t| - 1] == DecimalText(n / 10);
      DecimalTextInjective(m / 10, n / 10);
    }
  }
}
