/** Media kinds and the C++ integer arithmetic that several components share. */
module Media {
  datatype Option<+T> = None | Some(value: T) {
    predicate IsFailure() {
      None?
    }

    function PropagateFailure<U>(): Option<U>
      requires None?
    {
      None
    }

    function Extract(): T
      requires Some?
    {
      value
    }
  }

  datatype MediaType = Video | Audio | Text | Metadata | OtherMedia

  /** Integer division as C++ does it: the quotient is truncated towards zero. */
  function TruncDiv(a: int, b: int): int
    requires b != 0
  {
    var q := (if a < 0 then -a else a) / (if b < 0 then -b else b);
    if (a < 0) == (b < 0) then q else -q
  }

  /** What is left over is smaller than the divisor and has the sign of the dividend. */
  lemma TruncDivLeavesRemainder(a: int, b: int) returns (rest: int)
    requires b != 0
    ensures a == TruncDiv(a, b) * b + rest
    ensures if a < 0 then rest <= 0 else rest >= 0
    ensures if b < 0 then b < rest < -b else -b < rest < b
  {
    var x, y := if a < 0 then -a else a, if b < 0 then -b else b;
    var q, r := x / y, x % y;
    assert x == q * y + r;
    Signs(q, y);
    rest := if a < 0 then -r else r;
  }

  lemma Signs(q: int, y: int)
    ensures -q * y == -(q * y) && q * -y == -(q * y) && -q * -y == q * y
  {
  }

  /** Quotient and remainder are the only ones there are. */
  lemma DivIs(a: nat, b: nat, q: int, r: int)
    requires b > 0 && a == q * b + r && 0 <= r < b
    ensures a / b == q && a % b == r
  {
    var p, t := a / b, a % b;
    assert a == p * b + t;
    if p < q {
      Widen(p + 1, q, b);
    } else if p > q {
      Widen(q + 1, p, b);
    }
  }

  lemma Widen(p: int, q: int, b: nat)
    requires p <= q
    ensures p * b <= q * b
  {
  }
}
