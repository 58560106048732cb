// memcmp and the "Not So Naive" memmem.
module StringSearch {

  import opened Words

  // x occurs in y at position j.
  predicate OccursAt(y: seq<Byte>, x: seq<Byte>, j: int) {
    0 <= j && j + |x| <= |y| && y[j..j + |x|] == x
  }

  function Difference(p: int, q: int): int {
    p - q
  }

  // Zero exactly for equal blocks; otherwise the difference of the first bytes that differ.
  method MemCmp(a: seq<Byte>, b: seq<Byte>, n: nat) returns (d: int)
    requires n <= |a| && n <= |b|
    ensures d == 0 <==> a[..n] == b[..n]
    ensures d != 0 ==> exists i :: 0 <= i < n && a[..i] == b[..i] && d == Difference(a[i], b[i])
  {
    d := 0;
    var i := 0;
    while i < n
      invariant 0 <= i <= n && d == 0 && a[..i] == b[..i]
    {
      d := Difference(a[i], b[i]);
      if d != 0 {
        assert a[..n][i] != b[..n][i];
        return;
      }
      i := i + 1;
    }
  }

  lemma OccursTail(y: seq<Byte>, x: seq<Byte>, j: nat)
    requires |x| >= 2 && j + |x| <= |y|
    ensures OccursAt(y, x, j) <==> y[j] == x[0] && y[j + 1] == x[1] && x[2..] == y[j + 2..j + |x|]
  {
    if y[j] == x[0] && y[j + 1] == x[1] && x[2..] == y[j + 2..j + |x|] {
      assert x == [x[0], x[1]] + x[2..];
      assert y[j..j + |x|] == [y[j], y[j + 1]] + y[j + 2..j + |x|];
    }
    if OccursAt(y, x, j) {
      assert y[j..j + |x|][0] == y[j] && y[j..j + |x|][1] == y[j + 1];
      assert y[j..j + |x|][2..] == y[j + 2..j + |x|];
    }
  }

  // The skip of two positions: the second byte compared is the first byte of the next one.
  lemma SkipIsSafe(y: seq<Byte>, x: seq<Byte>, j: nat)
    requires |x| >= 2 && j + |x| <= |y|
    requires (x[0] == x[1]) != (x[1] == y[j + 1])
    ensures !OccursAt(y, x, j + 1)
  {
    if j + 1 + |x| <= |y| { OccursTail(y, x, j + 1); }
  }

  // memmem: the first occurrence of a needle that is not empty, and None exactly when there is
  // none. The shift after a mismatch in the second byte is k, after any other one l.
  method MemMem(y: seq<Byte>, x: seq<Byte>) returns (r: Option<nat>)
    ensures x == [] ==> r == None
    ensures x != [] && r == None ==> forall j :: !OccursAt(y, x, j)
    ensures r != None ==> x != [] && OccursAt(y, x, r.value) && forall j :: 0 <= j < r.value ==> !OccursAt(y, x, j)
  {
    var n, m := |y|, |x|;
    if m > n || m == 0 || n == 0 {
      return None;
    }
    if m == 1 {
      r := FindByte(y, x);
      return;
    }
    var k, l := if x[0] == x[1] then 2 else 1, if x[0] == x[1] then 1 else 2;
    var j := 0;
    while j <= n - m
      invariant 0 <= j
      invariant forall i :: 0 <= i < j ==> !OccursAt(y, x, i)
      decreases n - j
    {
      OccursTail(y, x, j);
      if (x[0] == x[1]) != (x[1] == y[j + 1]) {
        SkipIsSafe(y, x, j);
      }
      if x[1] != y[j + 1] {
        j := j + k;
      } else {
        var d := MemCmp(x[2..], y[j + 2..], m - 2);
        assert x[2..][..m - 2] == x[2..] && y[j + 2..][..m - 2] == y[j + 2..j + m];
        if d == 0 && x[0] == y[j] {
          return Some(j);
        }
        j := j + l;
      }
    }
    r := None;
  }

  method FindByte(y: seq<Byte>, x: seq<Byte>) returns (r: Option<nat>)
    requires |x| == 1 <= |y|
    ensures r == None ==> forall j :: !OccursAt(y, x, j)
    ensures r != None ==> OccursAt(y, x, r.value) && forall j :: 0 <= j < r.value ==> !OccursAt(y, x, j)
  {
    var i := 0;
    while i < |y|
      invariant 0 <= i <= |y|
      invariant forall j :: 0 <= j < i ==> !OccursAt(y, x, j)
    {
      assert y[i..i + 1] == [y[i]] && x == [x[0]];
      if y[i] == x[0] {
        return Some(i);
      }
      i := i + 1;
    }
    r := None;
  }
}
