/** Amounts of points are kept to four decimal places. */
module Points {
  // Math.round(x * 10000) / 10000, where Math.round rounds halves up.
  function Round4(x: real): real {
    (x * 10000.0 + 0.5).Floor as real / 10000.0
  }

  // The share of the earned points that a percentage gives.
  function Share(points: real, percentage: real): real {
    Round4(points * percentage / 100.0)
  }

  lemma Round4IsNear(x: real)
    ensures x - 0.00005 < Round4(x) <= x + 0.00005
    ensures 0.0 <= x ==> 0.0 <= Round4(x)
    ensures (Round4(x) * 10000.0).Floor as real == Round4(x) * 10000.0
  {
    var n := (x * 10000.0 + 0.5).Floor;
    assert n as real <= x * 10000.0 + 0.5 < n as real + 1.0;
    assert Round4(x) * 10000.0 == n as real;
  }

  // r is x to four places: a multiple of 0.0001, the nearest, and the upper one of two.
  ghost predicate Rounded(r: real, x: real) {
    r - 0.00005 <= x < r + 0.00005 && (r * 10000.0).Floor as real == r * 10000.0
  }

  lemma ShareIsRounded(points: real, percentage: real)
    ensures Rounded(Share(points, percentage), points * percentage / 100.0)
  {
    Round4IsNear(points * percentage / 100.0);
  }

  lemma RoundedIsUnique(a: real, b: real, x: real)
    requires Rounded(a, x) && Rounded(b, x)
    ensures a == b
  {
    var m, n := (a * 10000.0).Floor, (b * 10000.0).Floor;
    assert (m - n) as real == a * 10000.0 - b * 10000.0;
    assert -1 < m - n < 1;
  }

  lemma ProductNonNegative(a: real, b: real)
    requires 0.0 <= a && 0.0 <= b
    ensures 0.0 <= a * b
  {
  }

  lemma ShareNonNegative(points: real, percentage: real)
    requires 0.0 <= points && 0.0 <= percentage
    ensures 0.0 <= Share(points, percentage)
  {
    ProductNonNegative(points, percentage);
    Round4IsNear(points * percentage / 100.0);
  }
}
