/** Orders of the slides in a slider's track. Slides are named by their
    position in the initial order, so the initial order of `n` slides is
    `Ids(n)`, and the physical order that the infinite slider produces by
    moving elements is always a rotation of it. */
module Rotation {

  /** The initial order of a track holding `n` slides. */
  function Ids(n: nat): (r: seq<nat>)
    ensures |r| == n
  {
    if n == 0 then [] else Ids(n - 1) + [n - 1]
  }

  /** Slide `j` of the initial order sits at position `j`. */
  lemma {:induction false} IdsAt(n: nat)
    ensures forall j :: 0 <= j < n ==> Ids(n)[j] == j
  {
    if n > 0 {
      IdsAt(n - 1);
      assert forall j :: 0 <= j < n - 1 ==> Ids(n)[j] == Ids(n - 1)[j];
    }
  }

  /** The initial order names every slide exactly once. */
  lemma IdsDistinct(n: nat)
    ensures Distinct(Ids(n))
    ensures forall j :: 0 <= j < n ==> Ids(n)[j] < n
  {
    IdsAt(n);
  }

  /** No slide appears twice. */
  predicate Distinct<T(==)>(s: seq<T>) {
    forall a, b :: 0 <= a < b < |s| ==> s[a] != s[b]
  }

  /** `s` rotated left by `k`: the element at position `k` comes first and
      the elements before it move to the end. */
  function RotateLeft<T>(s: seq<T>, k: nat): (r: seq<T>)
    requires k <= |s|
    ensures |r| == |s|
  {
    s[k..] + s[..k]
  }

  /** Rotating by nothing leaves the order as it is. */
  lemma RotateLeftZero<T>(s: seq<T>)
    ensures RotateLeft(s, 0) == s
  {
    assert s[0..] == s;
  }

  /** A rotation is a permutation: no slide is created or lost. */
  lemma RotateLeftPermutes<T>(s: seq<T>, k: nat)
    requires k <= |s|
    ensures multiset(RotateLeft(s, k)) == multiset(s)
  {
    assert s == s[..k] + s[k..];
  }

  /** Position `j` of the rotation holds the element `k` places further on,
      counting round the end. */
  lemma RotateLeftAt<T>(s: seq<T>, k: nat)
    requires k <= |s|
    ensures forall j :: 0 <= j < |s| ==> RotateLeft(s, k)[j] == s[(j + k) % |s|]
  {
    var r := RotateLeft(s, k);
    forall j | 0 <= j < |s| ensures r[j] == s[(j + k) % |s|] {
      if j + k < |s| {
        ModSmall(j + k, |s|);
      } else {
        ModWrap(j + k, |s|);
      }
    }
  }

  /** The first element moved behind the last (`appendChild` of the track's
      first slide). */
  function MoveFirstToEnd<T>(s: seq<T>): (r: seq<T>)
    requires |s| > 0
    ensures |r| == |s| && r[|r| - 1] == s[0]
  {
    s[1..] + [s[0]]
  }

  /** The last element moved before the first (`insertBefore` of the
      track's last slide). */
  function MoveLastToFront<T>(s: seq<T>): (r: seq<T>)
    requires |s| > 0
    ensures |r| == |s| && r[0] == s[|s| - 1]
  {
    [s[|s| - 1]] + s[..|s| - 1]
  }

  /** Each move is a rotation by one place: forward for `appendChild` of
      the first element, backward for `insertBefore` of the last. */
  lemma MovesAreRotations<T>(s: seq<T>)
    requires |s| > 0
    ensures MoveFirstToEnd(s) == RotateLeft(s, 1)
    ensures MoveLastToFront(s) == RotateLeft(s, |s| - 1)
  {
    assert s[..1] == [s[0]];
    assert s[|s| - 1..] == [s[|s| - 1]];
  }

  /** Moving the first element to the end advances a rotation by one. */
  lemma {:induction false} MoveFirstToEndAdvances<T>(s: seq<T>, k: nat)
    requires k < |s|
    ensures MoveFirstToEnd(RotateLeft(s, k)) == RotateLeft(s, if k + 1 == |s| then 0 else k + 1)
  {
    var n := |s|;
    var r := RotateLeft(s, k);
    RotateLeftAt(s, k);
    RotateLeftAt(s, if k + 1 == |s| then 0 else k + 1);
    var m := MoveFirstToEnd(r);
    var k' := if k + 1 == n then 0 else k + 1;
    var t := RotateLeft(s, k');
    assert |m| == |t| == n;
    forall j | 0 <= j < n ensures m[j] == t[j] {
      if j < n - 1 {
        assert m[j] == r[j + 1] == s[(j + 1 + k) % n];
      } else {
        assert m[j] == r[0] == s[k % n];
      }
      ModShift(j, k, n);
    }
  }

  /** Moving the last element to the front takes a rotation back by one. */
  lemma {:induction false} MoveLastToFrontRetreats<T>(s: seq<T>, k: nat)
    requires k < |s|
    ensures MoveLastToFront(RotateLeft(s, k)) == RotateLeft(s, if k == 0 then |s| - 1 else k - 1)
  {
    var n := |s|;
    var r := RotateLeft(s, k);
    RotateLeftAt(s, k);
    RotateLeftAt(s, if k == 0 then |s| - 1 else k - 1);
    var m := MoveLastToFront(r);
    var k' := if k == 0 then n - 1 else k - 1;
    var t := RotateLeft(s, k');
    assert |m| == |t| == n;
    forall j | 0 <= j < n ensures m[j] == t[j] {
      if j == 0 {
        assert m[j] == r[n - 1] == s[(n - 1 + k) % n];
      } else {
        assert m[j] == r[j - 1] == s[(j - 1 + k) % n];
      }
      ModShiftBack(j, k, n);
    }
  }

  /** Moving the last element to the front undoes moving the first to the
      end, and the other way round. */
  lemma {:induction false} MovesAreInverse<T>(s: seq<T>)
    requires |s| > 0
    ensures MoveLastToFront(MoveFirstToEnd(s)) == s
    ensures MoveFirstToEnd(MoveLastToFront(s)) == s
  {
    var n := |s|;
    assert MoveFirstToEnd(s)[..n - 1] == s[1..];
    assert [s[0]] + s[1..] == s;
    assert MoveLastToFront(s)[1..] == s[..n - 1];
    assert s[..n - 1] + [s[n - 1]] == s;
  }

  /** In a rotation of the initial order, position `j` holds slide
      `(j + k) mod n`; in particular the first position holds slide `k`. */
  lemma RotatedIdsAt(n: nat, k: nat, j: nat)
    requires k < n && j < n
    ensures RotateLeft(Ids(n), k)[j] == (j + k) % n
    ensures RotateLeft(Ids(n), k)[0] == k
  {
    IdsAt(n);
    RotateLeftAt(Ids(n), k);
    ModSmall(k, n);
  }

  /** A rotation of the initial order names every slide exactly once. */
  lemma RotatedIdsDistinct(n: nat, k: nat)
    requires k <= n
    ensures Distinct(RotateLeft(Ids(n), k))
    ensures forall j :: 0 <= j < n ==> RotateLeft(Ids(n), k)[j] < n
  {
    var r := RotateLeft(Ids(n), k);
    IdsAt(n);
    RotateLeftAt(Ids(n), k);
    forall a, b | 0 <= a < b < n ensures r[a] != r[b] {
      ModDistinct(a, b, k, n);
    }
  }

  // Arithmetic on positions modulo the number of slides.

  lemma ModSmall(x: int, n: int)
    requires 0 <= x < n
    ensures x % n == x
  {
  }

  lemma ModWrap(x: int, n: int)
    requires n <= x < 2 * n
    ensures x % n == x - n
  {
  }

  lemma MulNonneg(x: int, y: int)
    requires x >= 0 && y >= 0
    ensures x * y >= 0
  {
  }

  /** Quotient and remainder are the only pair with `a == q * b + m` and
      `0 <= m < b`. */
  lemma ModUnique(a: int, b: int, q: int, m: int)
    requires b > 0 && 0 <= m < b && a == q * b + m
    ensures a % b == m && a / b == q
  {
    var q0, m0 := a / b, a % b;
    assert a == q0 * b + m0;
    var d := q - q0;
    assert d * b == m0 - m;
    if d >= 1 {
      MulNonneg(d - 1, b);
    } else if d <= -1 {
      MulNonneg(-d - 1, b);
    }
  }

  lemma ModShift(j: nat, k: nat, n: nat)
    requires j < n && k < n
    ensures (j + (if k + 1 == n then 0 else k + 1)) % n == (if j < n - 1 then (j + 1 + k) % n else k % n)
  {
    ModSmall(k, n);
    if k + 1 < n {
      if j == n - 1 {
        ModWrap(j + 1 + k, n);
      }
    } else {
      ModSmall(j, n);
      if j < n - 1 {
        ModWrap(j + 1 + k, n);
      }
    }
  }

  lemma ModShiftBack(j: nat, k: nat, n: nat)
    requires j < n && k < n
    ensures (j + (if k == 0 then n - 1 else k - 1)) % n == (if j == 0 then (n - 1 + k) % n else (j - 1 + k) % n)
  {
    if k == 0 {
      if j > 0 {
        ModWrap(j + n - 1, n);
        ModSmall(j - 1 + k, n);
      }
    } else {
      if j == 0 {
        ModSmall(k - 1, n);
        ModWrap(n - 1 + k, n);
      } else if j - 1 + k < n {
        ModSmall(j + k - 1, n);
      } else {
        ModWrap(j + k - 1, n);
      }
    }
  }

  lemma ModDistinct(a: nat, b: nat, k: nat, n: nat)
    requires a < b < n && k <= n
    ensures (a + k) % n != (b + k) % n
  {
    if a + k < n { ModSmall(a + k, n); } else { ModWrap(a + k, n); }
    if b + k < n { ModSmall(b + k, n); } else { ModWrap(b + k, n); }
  }
}
