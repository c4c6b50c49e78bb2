/** Facts about quotients and remainders that circular buffers rely on. */
module Modulo {

  lemma Euclid(x: int, c: nat)
    requires c > 0
    ensures x == c * (x / c) + x % c && 0 <= x % c < c
  {
  }

  lemma MultipleGrows(c: nat, d: int)
    ensures d >= 1 ==> c * d >= c
    ensures d <= -1 ==> c * d <= 0 - c
  {
    if d >= 1 {
      assert c * d >= c * 1;
    } else if d <= -1 {
      assert c * d <= c * -1;
    }
  }

  lemma ModUnique(x: int, c: nat, q: int, r: int)
    requires c > 0 && x == c * q + r && 0 <= r < c
    ensures x % c == r && x / c == q
  {
    Euclid(x, c);
    var q' := x / c;
    assert c * (q - q') == c * q - c * q';
    MultipleGrows(c, q - q');
  }

  /** Numbers less than c apart have different remainders. */
  lemma RemaindersDiffer(i: int, j: int, c: nat)
    requires i < j < i + c
    ensures i % c != j % c
  {
    Euclid(i, c);
    var r, d := i % c, j - i;
    if r + d < c {
      ModUnique(j, c, i / c, r + d);
    } else {
      assert c * (i / c + 1) == c * (i / c) + c;
      ModUnique(j, c, i / c + 1, r + d - c);
    }
  }
}
