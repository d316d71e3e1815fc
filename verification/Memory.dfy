/** Memory as 32-bit words at their addresses. */
module Memory {
  import opened Bits

  /** Addresses that were never written hold 0. */
  type Words = map<Word, Word>

  function Read32(m: Words, a: int): Word {
    if Wrap(a) in m then m[Wrap(a)] else 0
  }

  function Write32(m: Words, a: int, v: Word): Words {
    m[Wrap(a) := v]
  }

  /** The address of word `k` of an area that starts at `a`. Addresses wrap around. */
  function At(a: int, k: int): Word {
    Wrap(a + 4 * k)
  }

  /** `x` is one of the `n` words from `a`. */
  ghost predicate Within(x: Word, a: int, n: nat) {
    exists k: nat :: k < n && At(a, k) == x
  }

  /** The two memories agree outside `n` words from `a`. */
  ghost predicate SameOutside(m: Words, w: Words, a: int, n: nat) {
    forall x: Word :: !Within(x, a, n) ==> Read32(m, x) == Read32(w, x)
  }

  /** An area of this many words does not meet itself around the end of the address space. */
  const MAX_AREA: int := 0x4000_0000

  lemma WriteFrame(m: Words, a: int, k: nat, v: Word)
    ensures SameOutside(m, Write32(m, At(a, k), v), a, k + 1)
    ensures Read32(Write32(m, At(a, k), v), At(a, k)) == v
  {
  }

  lemma SameOutsideBoth(m: Words, w: Words, v: Words, a: int, n: nat, k: nat)
    requires SameOutside(m, w, a, n) && SameOutside(w, v, a, k)
    ensures SameOutside(m, v, a, if n <= k then k else n)
  {
  }

  /** Part of an area. */
  lemma AreaPart(m: Words, w: Words, b: int, n: nat, a: int, i: nat, k: nat)
    requires SameOutside(m, w, b, n) && b == a + 4 * i && i + n <= k
    ensures SameOutside(m, w, a, k)
  {
    forall x: Word | Within(x, b, n) ensures Within(x, a, k) {
      var j: nat :| j < n && At(b, j) == x;
      assert At(a, i + j) == x;
    }
  }

  // ----- addresses ----------------------------------------------------------------------

  lemma WrapIsMod(x: int)
    ensures Wrap(x) == x % 0x1_0000_0000
  {
  }

  /** Equal addresses differ by a multiple of 2^32. */
  lemma WrapEqual(x: int, y: int)
    ensures Wrap(x) == Wrap(y) <==> Wrap(x - y) == 0
  {
    var n := 0x1_0000_0000;
    var p, q := x / n, y / n;
    assert x == p * n + x % n && y == q * n + y % n;
    if x % n == y % n {
      DivModUnique(p - q, 0, n);
    } else if x % n > y % n {
      DivModUnique(p - q, x % n - y % n, n);
    } else {
      DivModUnique(p - q - 1, x % n - y % n + n, n);
    }
    WrapIsMod(x); WrapIsMod(y); WrapIsMod(x - y);
  }

  lemma WrapSum(x: int, y: int)
    ensures Wrap(Wrap(x) + y) == Wrap(x + y)
  {
    var n := 0x1_0000_0000;
    WrapIsMod(x);
    var q := x / n;
    assert x == q * n + x % n;
    WrapEqual(x + y, Wrap(x) + y);
    DivModUnique(q, 0, n);
    WrapIsMod(q * n);
  }

  /** Where two areas meet. */
  lemma AtMeets(a: int, i: int, b: int, j: int)
    ensures At(a, i) == At(b, j) <==> Wrap(b - a - 4 * (i - j)) == 0
  {
    WrapEqual(b + 4 * j, a + 4 * i);
  }

  lemma AtDistinct(a: int, i: int, j: int)
    requires i != j && -MAX_AREA < i - j < MAX_AREA
    ensures At(a, i) != At(a, j)
  {
    AtMeets(a, i, a, j);
  }

  // ----- areas of words -----------------------------------------------------------------

  function ReadWords(m: Words, a: int, n: nat): (ws: seq<Word>)
    ensures |ws| == n && forall i :: 0 <= i < n ==> ws[i] == Read32(m, At(a, i))
  {
    seq(n, i requires 0 <= i < n => Read32(m, At(a, i)))
  }

  function WriteWords(m: Words, a: int, ws: seq<Word>): Words
    decreases |ws|
  {
    if ws == [] then m
    else Write32(WriteWords(m, a, ws[..|ws| - 1]), At(a, |ws| - 1), ws[|ws| - 1])
  }

  lemma {:induction false} ReadBackWords(m: Words, a: int, ws: seq<Word>)
    requires |ws| <= MAX_AREA
    ensures ReadWords(WriteWords(m, a, ws), a, |ws|) == ws
    decreases |ws|
  {
    if ws != [] {
      var n := |ws| - 1;
      var w := WriteWords(m, a, ws[..n]);
      ReadBackWords(m, a, ws[..n]);
      LastWordBack(w, a, n, ws[n], ws[..n]);
      assert ws == ws[..n] + [ws[n]];
    }
  }

  lemma LastWordBack(w: Words, a: int, n: nat, v: Word, ws: seq<Word>)
    requires n < MAX_AREA && ReadWords(w, a, n) == ws
    ensures ReadWords(Write32(w, At(a, n), v), a, n + 1) == ws + [v]
  {
    var w' := Write32(w, At(a, n), v);
    forall i | 0 <= i < n ensures Read32(w', At(a, i)) == Read32(w, At(a, i)) {
      AtDistinct(a, i, n);
    }
  }
}
