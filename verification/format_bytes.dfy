// The unit loop of formatBytes, in 64-bit arithmetic.
module FormatBytes {
  const UNIT := 1024
  const MAX_INT64 := 0x7fff_ffff_ffff_ffff

  function Power(base: nat, n: nat): nat
  {
    if n == 0 then 1 else base * Power(base, n - 1)
  }

  lemma {:induction false} PowerGrows(m: nat, n: nat)
    requires m <= n
    ensures Power(UNIT, m) <= Power(UNIT, n)
  {
    if m < n {
      PowerGrows(m, n - 1);
    }
  }

  lemma {:induction false} Scales(a: nat, b: nat, d: nat)
    requires a <= b
    ensures a * d <= b * d
  {
  }

  // n is size / div, kept free of division.
  predicate Quotient(size: nat, div: nat, n: nat)
  {
    n * div <= size < (n + 1) * div
  }

  lemma NextQuotient(size: nat, div: nat, n: nat)
    requires Quotient(size, div, n)
    ensures Quotient(size, div * UNIT, n / UNIT)
  {
    var q := n / UNIT;
    Scales(q * UNIT, n, div);
    Scales(n + 1, (q + 1) * UNIT, div);
  }

  // What is printed: plain bytes, or the size over `div` with the unit letter
  // at `exp`.
  datatype Rendering = Bytes(size: int) | Scaled(div: nat, exp: nat)

  const LETTERS: string := "KMGTPE"

  // formatBytes of an int64. div never leaves int64 and exp indexes LETTERS.
  method FormatBytes(size: int) returns (r: Rendering)
    requires size <= MAX_INT64
    ensures size < UNIT <==> r.Bytes?
    ensures r.Bytes? ==> r.size == size
    ensures r.Scaled? ==> r.div == Power(UNIT, r.exp + 1) && r.div <= size < UNIT * r.div
    ensures r.Scaled? ==> r.exp < |LETTERS| && r.div <= MAX_INT64
  {
    if size < UNIT {
      return Bytes(size);
    }
    var div: nat, exp: nat := UNIT, 0;
    assert Power(UNIT, 1) == UNIT;
    var n: nat := size / UNIT;
    while n >= UNIT
      invariant div > 0 && div == Power(UNIT, exp + 1)
      invariant Quotient(size, div, n) && 1 <= n
      invariant exp < 6
      decreases n
    {
      NextQuotient(size, div, n);
      Scales(UNIT, n, div);
      StaysBelow(size, exp);
      div := div * UNIT;
      exp := exp + 1;
      n := n / UNIT;
    }
    Scales(1, n, div);
    Scales(n + 1, UNIT, div);
    r := Scaled(div, exp);
  }

  lemma StaysBelow(size: nat, exp: nat)
    requires Power(UNIT, exp + 2) <= size <= MAX_INT64
    ensures exp < 5
  {
    if exp >= 5 {
      PowerGrows(7, exp + 2);
    }
  }

  // The scale is the only one: div and exp are determined by the size.
  lemma ScaleIsUnique(size: nat, e1: nat, e2: nat)
    requires Power(UNIT, e1 + 1) <= size < UNIT * Power(UNIT, e1 + 1)
    requires Power(UNIT, e2 + 1) <= size < UNIT * Power(UNIT, e2 + 1)
    ensures e1 == e2
  {
    if e1 < e2 {
      PowerGrows(e1 + 2, e2 + 1);
    } else if e2 < e1 {
      PowerGrows(e2 + 2, e1 + 1);
    }
  }
}
