// Packets of the GDB remote serial stub: a hexified fragment goes out run-length encoded, in a
// frame with a checksum. Characters and bytes are numbers.
module GdbSerial {

  import opened Words

  const BUFMAX := 400
  const HASH := 35
  const DOLLAR := 36
  const STAR := 42
  const PLUS := 43
  const MINUS := 45
  const COLON := 58
  const BRACE := 125

  // ---- Hexadecimal digits

  function HexChar(d: int): (c: int)
    requires 0 <= d < 16
    ensures 48 <= c <= 57 || 97 <= c <= 102
  {
    if d < 10 then 48 + d else 87 + d
  }

  // hex()
  function Hex(ch: int): int {
    if 48 <= ch <= 57 then ch - 48
    else if 97 <= ch <= 102 then ch - 87
    else if 65 <= ch <= 70 then ch - 55
    else -1
  }

  // It knows the digits in either case and nothing else.
  lemma HexMeans(ch: int, d: int)
    requires 0 <= d < 16
    ensures -1 <= Hex(ch) < 16
    ensures Hex(ch) == d <==> ch == "0123456789abcdef"[d] as int || ch == "0123456789ABCDEF"[d] as int
  {}

  lemma HexOfChar(d: int)
    requires 0 <= d < 16
    ensures Hex(HexChar(d)) == d
  {}

  function HexAll(data: seq<Byte>): (s: seq<int>)
    ensures |s| == 2 * |data|
  {
    if data == [] then [] else [HexChar(data[0] / 16), HexChar(data[0] % 16)] + HexAll(data[1..])
  }

  // What hex2bin makes of the characters, or None if one is not a digit.
  function Unhex(s: seq<int>): Option<seq<int>> {
    if |s| < 2 then Some([])
    else if Hex(s[0]) < 0 || Hex(s[1]) < 0 then None
    else match Unhex(s[2..])
      case None => None
      case Some(rest) => Some([16 * Hex(s[0]) + Hex(s[1])] + rest)
  }

  lemma {:induction false} UnhexHexAll(data: seq<Byte>)
    ensures Unhex(HexAll(data)) == Some(data)
  {
    if data != [] {
      var s := HexAll(data);
      assert s[2..] == HexAll(data[1..]);
      UnhexHexAll(data[1..]);
      HexOfChar(data[0] / 16);
      HexOfChar(data[0] % 16);
      assert data == [data[0]] + data[1..];
    }
  }

  method Hex2Bin(chars: seq<int>, out: array<int>, len: nat) returns (r: int)
    requires 2 * len <= |chars| && len <= out.Length
    modifies out
    ensures Unhex(chars[..2 * len]) == None ==> r == -1
    ensures Unhex(chars[..2 * len]) != None ==> r == 0 && out[..len] == Unhex(chars[..2 * len]).value
    ensures out[len..] == old(out[len..])
  {
    var k := 0;
    ghost var s := chars[..2 * len];
    assert s[2 * k..] == s && out[..k] == [];
    JoinedNothing(Unhex(s));
    while k < len
      invariant 0 <= k <= len && out[len..] == old(out[len..])
      invariant Unhex(s) == Joined(out[..k], Unhex(s[2 * k..]))
    {
      var hi, lo := Hex(chars[2 * k]), Hex(chars[2 * k + 1]);
      assert s[2 * k..][0] == chars[2 * k] && s[2 * k..][1] == chars[2 * k + 1];
      assert s[2 * k..][2..] == s[2 * (k + 1)..];
      if hi < 0 || lo < 0 {
        return -1;
      }
      ghost var done := out[..k];
      out[k] := 16 * hi + lo;
      assert out[..k + 1] == done + [16 * hi + lo];
      JoinedOnce(done, 16 * hi + lo, Unhex(s[2 * (k + 1)..]));
      k := k + 1;
    }
    return 0;
  }

  function Joined(done: seq<int>, rest: Option<seq<int>>): Option<seq<int>> {
    if rest == None then None else Some(done + rest.value)
  }

  lemma JoinedNothing(rest: Option<seq<int>>)
    ensures Joined([], rest) == rest
  {
    if rest != None { assert [] + rest.value == rest.value; }
  }

  lemma JoinedOnce(done: seq<int>, b: int, rest: Option<seq<int>>)
    ensures Joined(done, if rest == None then None else Some([b] + rest.value)) == Joined(done + [b], rest)
  {
    if rest != None { assert done + ([b] + rest.value) == done + [b] + rest.value; }
  }

  // ---- Run-length encoding

  // One part of a packet: bytes sent as two digits each, or characters sent as they are. A part
  // given without a length is its bytes before the first zero.
  datatype Fragment = Fragment(bytes: seq<Byte>, hexify: bool)

  // Characters sent for one byte.
  function Width(h: bool): (w: nat) {
    if h then 2 else 1
  }

  // The longest run sent at once: 98 characters.
  function Most(h: bool): (m: nat) {
    if h then 49 else 98
  }

  // How many of the first bytes, at most `most`, equal the first one.
  function Run(data: seq<Byte>, most: nat): (k: nat)
    requires data != [] && most >= 1
    ensures 1 <= k <= most && k <= |data| && forall i :: 0 <= i < k ==> data[i] == data[0]
    ensures k < most && k < |data| ==> data[k] != data[0]
  {
    RunFrom(data, most, 1)
  }

  function RunFrom(data: seq<Byte>, most: nat, q: nat): (k: nat)
    requires 1 <= q <= |data| && q <= most && forall i :: 0 <= i < q ==> data[i] == data[0]
    ensures q <= k <= most && k <= |data| && forall i :: 0 <= i < k ==> data[i] == data[0]
    ensures k < most && k < |data| ==> data[k] != data[0]
    decreases most - q
  {
    if q < most && q < |data| && data[q] == data[0] then RunFrom(data, most, q + 1) else q
  }

  lemma RunIs(data: seq<Byte>, most: nat, k: nat)
    requires 1 <= k <= |data| && k <= most && forall i :: 0 <= i < k ==> data[i] == data[0]
    requires k == most || k == |data| || data[k] != data[0]
    ensures Run(data, most) == k
  {}

  // Whether the next four characters, at least, are the same.
  predicate Repeats(data: seq<Byte>, h: bool) {
    if h then |data| > 1 && data[1] == data[0] && data[0] / 16 == data[0] % 16
    else |data| > 3 && data[1] == data[0] && data[2] == data[0] && data[3] == data[0]
  }

  function Bare(b: Byte, h: bool): (r: seq<int>)
    ensures |r| == Width(h)
  {
    if h then [HexChar(b / 16), HexChar(b % 16)] else [b]
  }

  function Symbol(b: Byte, h: bool): int {
    if h then HexChar(b % 16) else b
  }

  // The count of a run of n bytes, offset so that it can be printed.
  function CountChar(n: nat, h: bool): int {
    28 + Width(h) * n
  }

  // What one turn of the loop of putfrags sends, and how many bytes it takes.
  function Piece(data: seq<Byte>, h: bool): (r: seq<int>)
    requires data != []
    ensures 1 <= |r| <= 3
  {
    if Repeats(data, h) then [Symbol(data[0], h), STAR, CountChar(Run(data, Most(h)), h)] else Bare(data[0], h)
  }

  function Taken(data: seq<Byte>, h: bool): (k: nat)
    requires data != []
    ensures 1 <= k <= |data|
  {
    if Repeats(data, h) then Run(data, Most(h)) else 1
  }

  // The payload made of a fragment: `character * count` for runs of four characters or more.
  function Encode(data: seq<Byte>, h: bool): seq<int> {
    if data == [] then [] else Piece(data, h) + Encode(data[Taken(data, h)..], h)
  }

  function Payload(frags: seq<Fragment>): seq<int> {
    if frags == [] then [] else Encode(frags[0].bytes, frags[0].hexify) + Payload(frags[1..])
  }

  // What the packet means: the characters without the run lengths.
  function Plain(data: seq<Byte>, h: bool): (s: seq<int>)
    ensures |s| == Width(h) * |data|
  {
    if h then HexAll(data) else data
  }

  function PlainAll(frags: seq<Fragment>): seq<int> {
    if frags == [] then [] else Plain(frags[0].bytes, frags[0].hexify) + PlainAll(frags[1..])
  }

  // The receiver's side: `c * n` stands for c repeated n - 29 more times.
  function Expand(s: seq<int>): seq<int>
    decreases |s|
  {
    if |s| >= 3 && s[1] == STAR && s[2] >= 29 then seq(1 + (s[2] - 29), _ => s[0]) + Expand(s[3..])
    else if s != [] then [s[0]] + Expand(s[1..])
    else []
  }

  // A star in a text would be taken for the mark of a run.
  predicate Starless(data: seq<Byte>, h: bool) {
    h || STAR !in data
  }

  predicate NoStar(e: seq<int>) {
    e == [] || e[0] != STAR
  }

  lemma FirstIsPlain(data: seq<Byte>, h: bool, tail: seq<int>)
    requires Starless(data, h) && NoStar(tail)
    ensures NoStar(Encode(data, h) + tail)
  {
    if data != [] { assert data[0] in data; }
  }

  // Plain characters in front are kept.
  lemma ExpandOne(a: int, e: seq<int>)
    requires NoStar(e)
    ensures Expand([a] + e) == [a] + Expand(e)
  {
    assert ([a] + e)[1..] == e;
  }

  lemma ExpandBare(b: Byte, h: bool, e: seq<int>)
    requires (h || b != STAR) && NoStar(e)
    ensures Expand(Bare(b, h) + e) == Bare(b, h) + Expand(e)
  {
    if h {
      var hi, lo := HexChar(b / 16), HexChar(b % 16);
      assert [hi, lo] + e == [hi] + ([lo] + e);
      ExpandOne(lo, e);
      ExpandOne(hi, [lo] + e);
    } else {
      ExpandOne(b, e);
    }
  }

  lemma {:induction false} HexRun(data: seq<Byte>, k: nat)
    requires k <= |data| && forall i :: 0 <= i < k ==> data[i] == data[0] && data[0] / 16 == data[0] % 16
    ensures k > 0 ==> HexAll(data) == seq(2 * k, _ => HexChar(data[0] % 16)) + HexAll(data[k..])
    ensures k == 0 ==> HexAll(data) == HexAll(data[k..])
  {
    if k == 0 {
      assert data[0..] == data;
    } else {
      var c := HexChar(data[0] % 16);
      if k > 1 {
        assert forall i :: 0 <= i < k - 1 ==> data[1..][i] == data[i + 1];
        HexRun(data[1..], k - 1);
      }
      assert data[1..][k - 1..] == data[k..];
      assert seq(2 * k, _ => c) == [c, c] + seq(2 * (k - 1), _ => c);
    }
  }

  lemma PlainRun(data: seq<Byte>, h: bool, k: nat)
    requires 1 <= k <= |data| && (forall i :: 0 <= i < k ==> data[i] == data[0]) && (h ==> data[0] / 16 == data[0] % 16)
    ensures Plain(data, h) == seq(Width(h) * k, _ => Symbol(data[0], h)) + Plain(data[k..], h)
  {
    if h {
      HexRun(data, k);
    } else {
      assert data == data[..k] + data[k..];
      assert data[..k] == seq(k, _ => data[0]);
    }
  }

  lemma PlainFirst(data: seq<Byte>, h: bool)
    requires data != []
    ensures Plain(data, h) == Bare(data[0], h) + Plain(data[1..], h)
  {}

  // One turn of the loop, undone.
  lemma ExpandPiece(data: seq<Byte>, h: bool, e: seq<int>)
    requires data != [] && Starless(data, h) && NoStar(e)
    ensures Expand(Piece(data, h) + e) == Meaning(data, h) + Expand(e)
    ensures Plain(data, h) == Meaning(data, h) + Plain(data[Taken(data, h)..], h)
  {
    if Repeats(data, h) {
      var k := Run(data, Most(h));
      PlainRun(data, h, k);
      var s := Piece(data, h) + e;
      assert s[3..] == e;
    } else {
      assert data[0] in data;
      ExpandBare(data[0], h, e);
      PlainFirst(data, h);
    }
  }

  // The characters a piece stands for.
  function Meaning(data: seq<Byte>, h: bool): seq<int>
    requires data != []
  {
    if Repeats(data, h) then seq(Width(h) * Run(data, Most(h)), _ => Symbol(data[0], h)) else Bare(data[0], h)
  }

  // Expanding the run lengths of a fragment gives its characters, whatever follows it.
  lemma {:induction false} ExpandEncode(data: seq<Byte>, h: bool, tail: seq<int>)
    requires Starless(data, h) && NoStar(tail)
    ensures Expand(Encode(data, h) + tail) == Plain(data, h) + Expand(tail)
    decreases |data|
  {
    if data == [] {
      ExpandNothing(h, tail);
    } else {
      var rest := data[Taken(data, h)..];
      StarlessRest(data, h, Taken(data, h));
      ExpandEncode(rest, h, tail);
      ExpandMore(data, h, tail);
    }
  }

  lemma ExpandNothing(h: bool, tail: seq<int>)
    ensures Expand(Encode([], h) + tail) == Plain([], h) + Expand(tail)
  {
    hide Expand;
    assert [] + tail == tail && [] + Expand(tail) == Expand(tail);
  }

  lemma ExpandMore(data: seq<Byte>, h: bool, tail: seq<int>)
    requires data != [] && Starless(data, h) && NoStar(tail)
    requires Starless(data[Taken(data, h)..], h)
    requires var rest := data[Taken(data, h)..]; Expand(Encode(rest, h) + tail) == Plain(rest, h) + Expand(tail)
    ensures Expand(Encode(data, h) + tail) == Plain(data, h) + Expand(tail)
  {
    hide Encode, Expand, Piece, Meaning, Plain, Taken, Starless, NoStar;
    var rest := data[Taken(data, h)..];
    var e := Encode(rest, h) + tail;
    FirstIsPlain(rest, h, tail);
    ExpandPiece(data, h, e);
    EncodeFirst(data, h);
    assert Piece(data, h) + Encode(rest, h) + tail == Piece(data, h) + e;
    assert Meaning(data, h) + (Plain(rest, h) + Expand(tail)) == Meaning(data, h) + Plain(rest, h) + Expand(tail);
  }

  lemma StarlessRest(data: seq<Byte>, h: bool, k: nat)
    requires Starless(data, h) && k <= |data|
    ensures Starless(data[k..], h)
  {}

  predicate StarlessAll(frags: seq<Fragment>) {
    forall i :: 0 <= i < |frags| ==> Starless(frags[i].bytes, frags[i].hexify)
  }

  lemma {:induction false} ExpandPayload(frags: seq<Fragment>)
    requires StarlessAll(frags)
    ensures Expand(Payload(frags)) == PlainAll(frags) && NoStar(Payload(frags))
  {
    if frags != [] {
      var f := frags[0];
      assert Starless(f.bytes, f.hexify);
      ExpandPayload(frags[1..]);
      ExpandEncode(f.bytes, f.hexify, Payload(frags[1..]));
      FirstIsPlain(f.bytes, f.hexify, Payload(frags[1..]));
    }
  }

  // A packet of one hexified fragment: the debugger gets the bytes back.
  lemma RoundTrip(data: seq<Byte>)
    ensures Unhex(Expand(Encode(data, true))) == Some(data)
  {
    ExpandEncode(data, true, []);
    UnhexHexAll(data);
    assert Encode(data, true) + [] == Encode(data, true) && HexAll(data) + [] == HexAll(data);
  }

  // ---- Which characters are sent as counts

  // The n bytes at i are equal and no neighbour is equal to them.
  ghost predicate FullRun(data: seq<Byte>, i: int, n: int) {
    && 0 <= i < i + n <= |data| && (forall j :: i <= j < i + n ==> data[j] == data[i])
    && (i == 0 || data[i - 1] != data[i]) && (i + n == |data| || data[i + n] != data[i])
  }

  predicate Coded(b: Byte, h: bool) {
    h ==> b / 16 == b % 16
  }

  // What the pieces of 98 characters leave of a run.
  function Remainder(n: nat, h: bool): nat {
    if h then n % 49 else n % 98
  }

  // What is left of a run after the pieces of 98 characters has the count c.
  ghost predicate LeavesCount(data: seq<Byte>, h: bool, i: int, n: int, c: int) {
    FullRun(data, i, n) && Coded(data[i], h) && CountChar(Remainder(n, h), h) == c
  }

  ghost predicate HasCount(data: seq<Byte>, h: bool, c: int) {
    exists i, n :: LeavesCount(data, h, i, n, c)
  }

  predicate Special(c: int) {
    c == HASH || c == DOLLAR || c == BRACE
  }

  // The characters that matter to the framing are sent for a fragment exactly when they are in
  // its text, or when a run in it leaves that count.
  lemma {:induction false} CountSent(data: seq<Byte>, h: bool, c: int)
    requires Special(c)
    ensures c in Encode(data, h) <==> HasCount(data, h, c) || (!h && c in data)
    decreases |data|
  {
    if data != [] {
      var n := Run(data, |data|);
      hide Encode, HasCount, CountChar, Remainder, Coded, Special;
      FirstRun(data, n, c);
      CountSent(data[n..], h, c);
      RunSent(data, n, h, c);
      CountShifts(data, n, h, c);
    } else {
      EncodeNothing(h);
    }
  }

  lemma FirstRun(data: seq<Byte>, n: nat, c: int)
    requires data != [] && n == Run(data, |data|)
    ensures FullRun(data, 0, n) && (c in data <==> c == data[0] || c in data[n..])
  {
    assert data == data[..n] + data[n..];
  }

  lemma {:induction false} RunSent(data: seq<Byte>, n: nat, h: bool, c: int)
    requires Special(c) && FullRun(data, 0, n)
    ensures c in Encode(data, h) <==>
      (Coded(data[0], h) && CountChar(Remainder(n, h), h) == c) || (!h && c == data[0]) || c in Encode(data[n..], h)
    decreases n
  {
    var k := Taken(data, h);
    FirstPart(data, h, c);
    PieceSpecial(data, h, c);
    TakenOf(data, n, h);
    CountLeft(n, k, h, c, Coded(data[0], h), Repeats(data, h));
    if k < n {
      RunRest(data, n, k);
      hide Encode, Piece, Taken, FullRun, Coded, Special, CountChar, Remainder, Repeats;
      RunSent(data[k..], n - k, h, c);
    }
  }

  // Of a run of n bytes the next piece takes k.
  lemma CountLeft(n: nat, k: nat, h: bool, c: int, coded: bool, repeats: bool)
    requires Special(c) && n >= 1 && (repeats <==> coded && n >= if h then 2 else 4)
    requires k == if !repeats then 1 else if n < Most(h) then n else Most(h)
    ensures coded && CountChar(Remainder(n, h), h) == c <==>
      (repeats && CountChar(k, h) == c) || (coded && k < n && CountChar(Remainder(n - k, h), h) == c)
  {
    RunPieces(n, h);
    RunPieces(n - k, h);
    hide Remainder;
  }

  lemma FirstPart(data: seq<Byte>, h: bool, c: int)
    requires data != []
    ensures c in Encode(data, h) <==> c in Piece(data, h) || c in Encode(data[Taken(data, h)..], h)
  {
    hide Encode, Piece, Taken;
    EncodeFirst(data, h);
  }

  lemma RunRest(data: seq<Byte>, n: nat, k: nat)
    requires FullRun(data, 0, n) && 0 < k < n
    ensures FullRun(data[k..], 0, n - k) && data[k..][n - k..] == data[n..] && data[k..][0] == data[0]
  {
    assert data[k..][n - k..] == data[n..];
    assert forall j :: 0 <= j < n - k ==> data[k..][j] == data[j + k];
  }

  // The special characters in one piece.
  lemma PieceSpecial(data: seq<Byte>, h: bool, c: int)
    requires Special(c) && data != []
    ensures c in Piece(data, h) <==>
      (!h && c == data[0]) || (Repeats(data, h) && CountChar(Run(data, Most(h)), h) == c)
  {}

  lemma TakenOf(data: seq<Byte>, n: nat, h: bool)
    requires FullRun(data, 0, n)
    ensures Repeats(data, h) <==> Coded(data[0], h) && n >= if h then 2 else 4
    ensures Taken(data, h) == if !Repeats(data, h) then 1 else if n < Most(h) then n else Most(h)
    ensures Repeats(data, h) ==> Run(data, Most(h)) == Taken(data, h)
  {
    RunIs(data, Most(h), if n < Most(h) then n else Most(h));
  }

  lemma RunPieces(n: nat, h: bool)
    ensures n < Most(h) ==> Remainder(n, h) == n
    ensures n >= Most(h) ==> Remainder(n, h) == Remainder(n - Most(h), h)
  {
    if h {
      assert n >= 49 ==> n % 49 == (n - 49) % 49;
    } else {
      assert n >= 98 ==> n % 98 == (n - 98) % 98;
    }
  }

  lemma CountShifts(data: seq<Byte>, n: nat, h: bool, c: int)
    requires FullRun(data, 0, n)
    ensures HasCount(data, h, c) <==> (Coded(data[0], h) && CountChar(Remainder(n, h), h) == c) || HasCount(data[n..], h, c)
  {
    var rest := data[n..];
    if Coded(data[0], h) && CountChar(Remainder(n, h), h) == c {
      assert LeavesCount(data, h, 0, n, c);
    }
    if i, m :| LeavesCount(rest, h, i, m, c) {
      RunLater(data, n, i, m);
      assert LeavesCount(data, h, n + i, m, c);
    }
    if i, m :| LeavesCount(data, h, i, m, c) {
      FirstOrLater(data, n, i, m);
      if i > 0 {
        assert LeavesCount(rest, h, i - n, m, c);
      }
    }
  }

  lemma RunLater(data: seq<Byte>, n: nat, i: int, m: int)
    requires FullRun(data, 0, n) && FullRun(data[n..], i, m)
    ensures FullRun(data, n + i, m)
  {
    var rest := data[n..];
    assert rest[0] == data[n] && (i > 0 ==> rest[i - 1] == data[n + i - 1]) && data[n - 1] == data[0];
    assert forall j :: n + i <= j < n + i + m ==> data[j] == rest[j - n];
    assert n + i + m < |data| ==> data[n + i + m] == rest[i + m];
  }

  lemma FirstOrLater(data: seq<Byte>, n: nat, i: int, m: int)
    requires FullRun(data, 0, n) && FullRun(data, i, m)
    ensures i == 0 ==> m == n
    ensures i > 0 ==> i >= n && FullRun(data[n..], i - n, m)
  {
    if i > 0 {
      var rest := data[n..];
      assert forall j :: i - n <= j < i - n + m ==> rest[j] == data[j + n];
    }
  }

  // A run that leaves exactly four bytes is sent with the count '$'.
  lemma DollarSent(data: seq<Byte>)
    ensures DOLLAR in Encode(data, true) <==> exists i, n :: FullRun(data, i, n) && Coded(data[i], true) && n % 49 == 4
  {
    CountSent(data, true, DOLLAR);
    if i, n :| FullRun(data, i, n) && Coded(data[i], true) && n % 49 == 4 {
      assert LeavesCount(data, true, i, n, DOLLAR);
    }
    if i, n :| LeavesCount(data, true, i, n, DOLLAR) {
      assert FullRun(data, i, n) && n % 49 == 4;
    }
  }

  // For example the bytes of a register that holds 0, between others.
  lemma FourZeros()
    ensures Encode([0, 0, 0, 0], true) == [48, STAR, DOLLAR]
  {
    var d: seq<Byte> := [0, 0, 0, 0];
    RunIs(d, 49, 4);
    assert d[4..] == [];
    EncodeFirst(d, true);
  }

  // No '#' and no '}' comes from digits; a text must have none, and no run that leaves one.
  ghost predicate Safe(f: Fragment) {
    f.hexify || forall c :: c == HASH || c == BRACE ==> c !in f.bytes && !HasCount(f.bytes, false, c)
  }

  lemma FragmentClean(f: Fragment)
    ensures Clean(Encode(f.bytes, f.hexify)) <==> Safe(f)
  {
    CountSent(f.bytes, f.hexify, HASH);
    CountSent(f.bytes, f.hexify, BRACE);
    if f.hexify {
      EvenCounts(f.bytes, HASH);
      EvenCounts(f.bytes, BRACE);
    }
    CleanIs(Encode(f.bytes, f.hexify));
    hide Encode, HasCount, Clean;
  }

  // Each byte counts for two digits.
  lemma EvenCounts(data: seq<Byte>, c: int)
    requires c % 2 == 1
    ensures !HasCount(data, true, c)
  {
    forall i, n ensures !LeavesCount(data, true, i, n, c) {}
  }

  // A hexified fragment is sent in printable characters.
  lemma {:induction false} EncodeClean(data: seq<Byte>)
    ensures forall c :: c in Encode(data, true) ==> 32 <= c <= 126 && c != HASH && c != BRACE
    decreases |data|
  {
    if data == [] {
      EncodeNothing(true);
    } else {
      EncodeClean(data[Taken(data, true)..]);
      EncodeFirst(data, true);
      assert forall c :: c in Piece(data, true) ==> 32 <= c <= 126 && c != HASH && c != BRACE;
      hide Encode, Piece, Taken;
    }
  }

  lemma CleanIs(s: seq<int>)
    ensures Clean(s) <==> HASH !in s && BRACE !in s
  {}

  lemma {:induction false} PayloadClean(frags: seq<Fragment>)
    ensures Clean(Payload(frags)) <==> forall k :: 0 <= k < |frags| ==> Safe(frags[k])
  {
    CleanIs(Payload(frags));
    if frags != [] {
      FragmentClean(frags[0]);
      PayloadClean(frags[1..]);
      CleanIs(Encode(frags[0].bytes, frags[0].hexify));
      CleanIs(Payload(frags[1..]));
      assert forall k :: 1 <= k < |frags| ==> frags[k] == frags[1..][k - 1];
    }
  }

  // ---- Frames

  function Sum(s: seq<int>): int {
    if s == [] then 0 else Sum(s[..|s| - 1]) + s[|s| - 1]
  }

  function Frame(payload: seq<int>): seq<int> {
    var c := Sum(payload) % 256;
    [DOLLAR] + payload + [HASH, HexChar(c / 16), HexChar(c % 16)]
  }

  // The frame of "OK" is "$OK#9a", and "0* " stands for four zeros.
  lemma KnownPackets()
    ensures Frame(['O' as int, 'K' as int]) == ['$' as int, 'O' as int, 'K' as int, '#' as int, '9' as int, 'a' as int]
    ensures Expand(['0' as int, '*' as int, ' ' as int]) == ['0' as int, '0' as int, '0' as int, '0' as int]
  {
    var ok := ['O' as int, 'K' as int];
    assert ok[..1] == ['O' as int] && Sum(['O' as int]) == 79 by { SumNothing(['O' as int][..0]); }
    assert Sum(ok) == 154;
    var run := ['0' as int, '*' as int, ' ' as int];
    assert run[3..] == [] && Expand(run[3..]) == [];
  }

  method SendPiece(data: seq<Byte>, h: bool, p: nat) returns (piece: seq<int>, next: nat)
    requires p < |data|
    ensures piece == Piece(data[p..], h) && next == p + Taken(data[p..], h)
  {
    if (if h then p + 1 else p + 3) < |data| && data[p + 1] == data[p]
       && (if h then data[p] / 16 == data[p] % 16 else data[p + 2] == data[p] && data[p + 3] == data[p]) {
      var q, limit := if h then p + 2 else p + 4, if h then p + 98 / 2 else p + 98;
      if limit > |data| {
        limit := |data|;
      }
      ghost var from := q;
      while q < limit && data[q] == data[p]
        invariant from <= q <= limit && forall i :: p <= i < q ==> data[i] == data[p]
      {
        q := q + 1;
      }
      RunIs(data[p..], Most(h), q - p);
      var rl := if h then (q - p) * 2 else q - p;
      piece := [if h then HexChar(data[p] % 16) else data[p], STAR, 29 + rl - 1];
      next := q;
    } else {
      piece := if h then [HexChar(data[p] / 16), HexChar(data[p] % 16)] else [data[p]];
      next := p + 1;
    }
  }

  lemma EncodeFirst(data: seq<Byte>, h: bool)
    requires data != []
    ensures Encode(data, h) == Piece(data, h) + Encode(data[Taken(data, h)..], h)
  {
    hide Piece, Taken;
  }

  lemma EncodeStep(data: seq<Byte>, h: bool, all: seq<int>, payload: seq<int>, p: nat, tail: seq<int>)
    requires p < |data| && all == payload + Encode(data[p..], h) + tail
    ensures all == payload + Piece(data[p..], h) + Encode(data[p + Taken(data[p..], h)..], h) + tail
  {
    hide Piece, Taken;
    var r := data[p..];
    assert r[Taken(r, h)..] == data[p + Taken(r, h)..];
    EncodeFirst(r, h);
    hide Encode;
    assert payload + (Piece(r, h) + Encode(r[Taken(r, h)..], h)) == payload + Piece(r, h) + Encode(r[Taken(r, h)..], h);
  }

  // The loop of putfrags over one fragment: what it sends, and the sum so far.
  method SendFragment(f: Fragment, checksum: int) returns (sent: seq<int>, sum: int)
    requires 0 <= checksum < 256
    ensures sent == Encode(f.bytes, f.hexify) && sum == (checksum + Sum(sent)) % 256
  {
    hide Encode, Piece, Taken, Sum;
    var data, h := f.bytes, f.hexify;
    sent, sum := [], checksum;
    SumNothing(sent);
    var p := 0;
    assert data[0..] == data && [] + Encode(data, h) + [] == Encode(data, h);
    while p < |data|
      invariant 0 <= p <= |data| && sum == (checksum + Sum(sent)) % 256
      invariant Encode(data, h) == sent + Encode(data[p..], h) + []
      decreases |data| - p
    {
      EncodeStep(data, h, Encode(data, h), sent, p, []);
      var piece, next := SendPiece(data, h, p);
      SumAppend(sent, piece);
      SumPiece(piece);
      ModAdd(checksum + Sum(sent), Sum(piece));
      sum := (sum + piece[0] + (if |piece| > 1 then piece[1] else 0) + if |piece| > 2 then piece[2] else 0) % 256;
      sent := sent + piece;
      p := next;
    }
    EncodeNothing(h);
    assert data[p..] == [] && sent + [] + [] == sent;
  }

  // One pass of putfrags over a packet.
  method SendFrame(frags: seq<Fragment>) returns (sent: seq<int>)
    ensures sent == Frame(Payload(frags))
  {
    hide Encode, Sum, Payload;
    var checksum := 0;
    sent := [DOLLAR];
    ghost var payload: seq<int> := [];
    SumNothing(payload);
    assert frags[0..] == frags && [] + Payload(frags) == Payload(frags);
    for i := 0 to |frags|
      invariant sent == [DOLLAR] + payload && checksum == Sum(payload) % 256
      invariant Payload(frags) == payload + Payload(frags[i..])
    {
      PayloadFirst(frags[i..]);
      assert frags[i..][1..] == frags[i + 1..];
      var part, sum := SendFragment(frags[i], checksum);
      SumAppend(payload, part);
      ModAdd(Sum(payload), Sum(part));
      checksum := sum;
      assert payload + (part + Payload(frags[i + 1..])) == payload + part + Payload(frags[i + 1..]);
      sent := sent + part;
      payload := payload + part;
    }
    assert frags[|frags|..] == [];
    PayloadNothing();
    assert payload == Payload(frags);
    sent := sent + [HASH, HexChar(checksum / 16), HexChar(checksum % 16)];
  }

  lemma EncodeNothing(h: bool)
    ensures Encode([], h) == []
  {}

  lemma PayloadNothing()
    ensures Payload([]) == []
  {}

  lemma PayloadFirst(frags: seq<Fragment>)
    requires frags != []
    ensures Payload(frags) == Encode(frags[0].bytes, frags[0].hexify) + Payload(frags[1..])
  {}

  lemma {:induction false} SumAppend(s: seq<int>, t: seq<int>)
    ensures Sum(s + t) == Sum(s) + Sum(t)
  {
    if t == [] {
      assert s + t == s;
    } else {
      var n := |t| - 1;
      SumAppend(s, t[..n]);
      assert (s + t)[..|s + t| - 1] == s + t[..n];
    }
  }

  lemma SumPiece(piece: seq<int>)
    requires 1 <= |piece| <= 3
    ensures Sum(piece) == piece[0] + (if |piece| > 1 then piece[1] else 0) + if |piece| > 2 then piece[2] else 0
  {
    assert piece[..1] == [piece[0]] && piece[..1][..0] == [];
    if |piece| > 1 { assert piece[..2][..1] == piece[..1]; }
    if |piece| > 2 { assert piece[..3] == piece && piece[..|piece| - 1] == piece[..2]; }
    assert piece[..|piece|] == piece;
  }

  // Taking the sum modulo 256 as one goes is taking it at the end.
  lemma ModAdd(x: int, y: int)
    ensures (x % 256 + y) % 256 == (x + y) % 256
  {}

  // putfrags: the frame is repeated until the debugger acknowledges it.
  method PutPacket(frags: seq<Fragment>, replies: seq<int>) returns (sent: seq<int>, used: nat, acked: bool)
    ensures used <= |replies| && (acked <==> exists i :: 0 <= i < |replies| && replies[i] % 128 == PLUS)
    ensures acked ==> used > 0 && replies[used - 1] % 128 == PLUS && sent == Copies(Frame(Payload(frags)), used)
    ensures forall i :: 0 <= i < used - (if acked then 1 else 0) ==> replies[i] % 128 != PLUS
    ensures !acked ==> used == |replies|
  {
    sent, used, acked := [], 0, false;
    while used < |replies| && !acked
      invariant used <= |replies| && (acked ==> used > 0 && replies[used - 1] % 128 == PLUS)
      invariant forall i :: 0 <= i < used - (if acked then 1 else 0) ==> replies[i] % 128 != PLUS
      invariant sent == Copies(Frame(Payload(frags)), used)
    {
      var frame := SendFrame(frags);
      sent := sent + frame;
      acked := replies[used] % 128 == PLUS;
      used := used + 1;
    }
  }

  function Copies(s: seq<int>, n: nat): seq<int> {
    if n == 0 then [] else Copies(s, n - 1) + s
  }

  lemma CopiesNothing(s: seq<int>)
    ensures Copies(s, 0) == []
  {}

  lemma CopiesOnce(s: seq<int>, n: nat)
    ensures Copies(s, n + 1) == Copies(s, n) + s
  {}

  // ---- The receiving side of the frame

  // Character j after the '$' ends the packet.
  predicate Ends(s: seq<int>, start: nat, j: nat)
    requires start + j < |s|
  {
    s[start + j] == HASH && (j == 0 || s[start + j - 1] != BRACE)
  }

  // The characters up to the '#', or as many as the buffer holds, or all there are.
  method ReadBody(input: seq<int>, start: nat, buffer: array<int>) returns (count: nat, ended: bool, checksum: int, ch: int)
    requires start <= |input| && buffer.Length == BUFMAX + 1
    modifies buffer
    ensures count <= BUFMAX && start + count <= |input| && buffer[..count] == input[start..start + count]
    ensures checksum == Sum(buffer[..count]) % 256
    ensures Body(input, start, count, ended)
    ensures ended ==> ch == HASH && start + count < |input| && input[start + count] == HASH
    ensures !ended ==> ch == if count == 0 then 0 else input[start + count - 1]
  {
    hide Sum, Ends;
    count, ended, checksum, ch := 0, false, 0, 0;
    SumNothing(buffer[..0]);
    while count < BUFMAX && start + count < |input| && !ended
      invariant count <= BUFMAX && start + count <= |input| && 0 <= checksum < 256
      invariant buffer[..count] == input[start..start + count]
      invariant checksum == Sum(buffer[..count]) % 256
      invariant forall j :: 0 <= j < count ==> !Ends(input, start, j)
      invariant ended ==> start + count < |input| && Ends(input, start, count) && ch == HASH && input[start + count] == HASH
      invariant !ended ==> ch == if count == 0 then 0 else input[start + count - 1]
      decreases BUFMAX - count, if ended then 0 else 1
    {
      ch := input[start + count];
      assert count > 0 ==> buffer[count - 1] == buffer[..count][count - 1] == input[start + count - 1];
      EndsIs(input, start, count);
      if ch == HASH && (count == 0 || buffer[count - 1] != BRACE) {
        ended := true;
      } else {
        SumOne(buffer[..count], ch);
        ghost var before := buffer[..count];
        checksum := (checksum + ch) % 256;
        buffer[count] := ch;
        count := count + 1;
        assert buffer[..count] == before + [ch];
      }
    }
  }

  // Where the reading of a packet stops.
  ghost predicate Body(input: seq<int>, start: nat, count: nat, ended: bool) {
    && start + count <= |input| && (forall j :: 0 <= j < count ==> !Ends(input, start, j))
    && (ended ==> start + count < |input| && Ends(input, start, count))
    && (!ended ==> count == BUFMAX || start + count == |input|)
  }

  // One turn of getpacket, from the '$' to the comparison of the checksums; `starved` when the
  // line falls silent before that, `marked` when the end mark was seen. Without an end mark the
  // received checksum counts as 255.
  method ReadFrame(input: seq<int>, buffer: array<int>) returns (starved: bool, count: nat, marked: bool, good: bool, used: nat)
    requires buffer.Length == BUFMAX + 1
    modifies buffer
    ensures used <= |input| && (!starved ==> used > 0 && count <= BUFMAX && buffer[count] == 0)
    // what is accepted: the two characters behind the mark match, or there is no mark and the sum is 255
    ensures !starved && marked ==> used >= 3 && input[used - 3] == HASH && (good <==> Matches(buffer[..count], input[used - 2], input[used - 1]))
    ensures !starved && !marked ==> count == BUFMAX && (good <==> Sum(buffer[..count]) % 256 == 255)
    // a packet of bounded length, possibly after other characters, is received as it was sent
    ensures !starved ==> Received(input, buffer[..count], marked, good, used)
    ensures starved ==> forall junk, payload, c, d, rest :: !Comes(input, junk, payload, c, d, rest)
  {
    hide Body, Comes, Clean, Matches;
    var at := 0;
    count, marked, good := 0, false, false;
    while at < |input| && input[at] % 128 != DOLLAR
      invariant 0 <= at <= |input| && NoStart(input[..at])
    {
      at := at + 1;
    }
    if at == |input| {
      assert input[..at] == input;
      NoFrame(input);
      return true, 0, false, false, at;
    }
    var ended, checksum, ch;
    count, ended, checksum, ch := ReadBody(input, at + 1, buffer);
    ghost var data := buffer[..count];
    buffer[count] := 0;
    assert buffer[..count] == data;
    used := at + 1 + count + if ended then 1 else 0;
    starved := !ended && count < BUFMAX;
    FrameRead(input, at, at + 1, count, ended);
    var xmitcsum := 255;
    if !starved && ch == HASH {
      marked := true;
      if used + 2 <= |input| {
        xmitcsum := (16 * Hex(input[used]) + Hex(input[used + 1])) % 256;
        used := used + 2;
      } else {
        starved := true;
      }
    }
    good := checksum == xmitcsum;
    if !starved && marked {
      MatchesIs(data, input[used - 2], input[used - 1]);
    }
  }

  // Every packet that comes on the line is the one received, and used up.
  ghost predicate Received(input: seq<int>, data: seq<int>, marked: bool, good: bool, used: nat) {
    used <= |input| && forall junk, payload, c, d, rest :: Comes(input, junk, payload, c, d, rest) ==>
      && marked && (good <==> Matches(payload, c, d)) && data == payload
      && used == |junk| + |payload| + 4 && input[used..] == rest
  }

  // What that says of damaged packets before a whole one.
  lemma TurnMeans(line: seq<int>, data: seq<int>, marked: bool, good: bool, used: nat)
    requires Received(line, data, marked, good, used)
    ensures forall n: nat, payload, rest :: Retried(line, n, payload, rest) ==>
      && marked && (good <==> n == 0) && (n == 0 ==> data == payload && line[used..] == rest)
      && (n > 0 ==> Retried(line[used..], n - 1, payload, rest))
  {
    hide Comes, Matches;
    RetriedParts(line);
  }

  lemma NothingComes(line: seq<int>)
    requires forall junk, payload, c, d, rest :: !Comes(line, junk, payload, c, d, rest)
    ensures forall n: nat, payload, rest :: !Retried(line, n, payload, rest)
  {
    hide Comes, Matches;
    RetriedParts(line);
  }

  // getpacket: damaged packets are refused until one arrives whole.
  method GetPacket(input: seq<int>, buffer: array<int>) returns (starved: bool, sent: seq<int>, used: nat)
    requires buffer.Length == BUFMAX + 1
    modifies buffer
    ensures used <= |input|
    ensures forall n: nat, payload, rest :: Retried(input, n, payload, rest) ==>
      && !starved && input[used..] == rest && Text(buffer[..]) == Command(payload)
      && Copies([MINUS], n) + [PLUS] <= sent
      && (|payload| >= 2 ==> sent == Copies([MINUS], n) + [PLUS] + SequenceId(payload))
  {
    hide Comes, Matches, Retried, Received, Command, Text, SequenceId, Copies, Sum;
    CopiesNothing([MINUS]);
    used, sent := 0, [];
    ghost var tries := 0;
    assert input[0..] == input;
    while true
      invariant used <= |input| && sent == Copies([MINUS], tries)
      invariant forall n: nat, payload, rest :: Retried(input, n, payload, rest) ==>
        n >= tries && Retried(input[used..], n - tries, payload, rest)
      decreases |input| - used
    {
      var line := input[used..];
      var silent, count, marked, good, took := ReadFrame(line, buffer);
      assert line[took..] == input[used + took..];
      used := used + took;
      if silent {
        NothingComes(line);
        return true, sent, used;
      }
      TurnMeans(line, buffer[..count], marked, good, took);
      if good {
        if marked {
          var reply := Acknowledge(buffer, count);
          sent := sent + reply;
        }
        return false, sent, used;
      }
      if marked {
        CopiesOnce([MINUS], tries);
        sent := sent + [MINUS];
        tries := tries + 1;
      }
    }
  }

  // The answer to a whole packet of `count` characters.
  method Acknowledge(buffer: array<int>, count: nat) returns (reply: seq<int>)
    requires buffer.Length == BUFMAX + 1 && count <= BUFMAX && buffer[count] == 0
    modifies buffer
    ensures [PLUS] <= reply && Text(buffer[..]) == Command(old(buffer[..count]))
    ensures count >= 2 ==> reply == [PLUS] + SequenceId(old(buffer[..count]))
  {
    hide Text, Command, SequenceId;
    ghost var before := buffer[..];
    TextStops(before, count);
    assert before[..count] == buffer[..count];
    CommandIs(before, count, buffer[..count]);
    var id := StripId(buffer);
    reply := [PLUS] + id;
  }

  // The sequence number of the packet, if there is one, is sent back and removed.
  method StripId(buffer: array<int>) returns (id: seq<int>)
    requires buffer.Length == BUFMAX + 1 && |Text(buffer[..])| <= BUFMAX
    modifies buffer
    ensures id == if old(buffer[2]) == COLON then [old(buffer[0]), old(buffer[1])] else []
    ensures Text(buffer[..]) ==
      if old(buffer[2]) == COLON && |Text(old(buffer[..]))| >= 3 then Text(old(buffer[..]))[3..] else Text(old(buffer[..]))
  {
    id := [];
    if buffer[2] == COLON {
      id := [buffer[0], buffer[1]];
      ghost var was := buffer[..];
      var count := StrLen(buffer);
      var i := 3;
      while i <= count
        invariant 3 <= i && (i <= count + 1 || i == 3)
        invariant forall j :: 0 <= j < i - 3 ==> buffer[j] == was[j + 3]
        invariant forall j :: i - 3 <= j < buffer.Length ==> buffer[j] == was[j]
      {
        buffer[i - 3] := buffer[i];
        i := i + 1;
      }
      TextAt(was, count);
      if count >= 3 {
        TextIs(buffer[..], count - 3);
        assert buffer[..][..count - 3] == was[..count][3..];
      } else {
        assert buffer[..] == was;
      }
    }
  }

  // The characters before the first zero.
  function Text(s: seq<int>): (t: seq<int>)
    ensures |t| <= |s| && t == s[..|t|] && (|t| < |s| ==> s[|t|] == 0) && 0 !in t
  {
    if s == [] || s[0] == 0 then [] else [s[0]] + Text(s[1..])
  }

  lemma {:induction false} TextIs(s: seq<int>, n: nat)
    requires n < |s| && s[n] == 0 && 0 !in s[..n]
    ensures Text(s) == s[..n]
  {
    if n > 0 {
      assert s[0] in s[..n] && s[1..][..n - 1] == s[..n][1..];
      TextIs(s[1..], n - 1);
    }
  }

  lemma TextAt(s: seq<int>, n: nat)
    requires n < |s| && n == |Text(s)|
    ensures Text(s) == s[..n] && s[n] == 0 && forall j :: 0 <= j < n ==> s[j] != 0
  {
    assert forall j :: 0 <= j < n ==> s[j] == Text(s)[j] && Text(s)[j] in Text(s);
  }

  lemma {:induction false} TextStops(s: seq<int>, n: nat)
    requires n < |s| && s[n] == 0
    ensures Text(s) == Text(s[..n]) && |Text(s)| <= n
  {
    if n > 0 && s[0] != 0 {
      TextStops(s[1..], n - 1);
      assert s[1..][..n - 1] == s[..n][1..];
    }
  }

  method StrLen(buffer: array<int>) returns (n: nat)
    requires |Text(buffer[..])| < buffer.Length
    ensures n == |Text(buffer[..])|
  {
    n := 0;
    TextAt(buffer[..], |Text(buffer[..])|);
    while buffer[n] != 0
      invariant n <= |Text(buffer[..])|
      decreases buffer.Length - n
    {
      n := n + 1;
    }
  }

  // A packet on the line: other characters, '$', the payload, '#' and two characters.
  ghost predicate Comes(input: seq<int>, junk: seq<int>, payload: seq<int>, c: int, d: int, rest: seq<int>) {
    && input == junk + ([DOLLAR] + payload + [HASH, c, d]) + rest
    && NoStart(junk) && Clean(payload) && |payload| < BUFMAX
  }

  predicate Matches(payload: seq<int>, c: int, d: int) {
    Sum(payload) % 256 == (16 * Hex(c) + Hex(d)) % 256
  }

  lemma MatchesIs(payload: seq<int>, c: int, d: int)
    ensures Matches(payload, c, d) <==> Sum(payload) % 256 == (16 * Hex(c) + Hex(d)) % 256
  {}

  // n damaged packets, and then one that is whole.
  ghost predicate Retried(input: seq<int>, n: nat, payload: seq<int>, rest: seq<int>)
    decreases n
  {
    if n == 0 then exists junk, c, d :: Comes(input, junk, payload, c, d, rest) && Matches(payload, c, d)
    else exists junk, p, c, d, tail :: Comes(input, junk, p, c, d, tail) && !Matches(p, c, d) && Retried(tail, n - 1, payload, rest)
  }

  lemma RetriedParts(line: seq<int>)
    ensures forall payload, rest :: Retried(line, 0, payload, rest) ==>
      exists junk, c, d :: Comes(line, junk, payload, c, d, rest) && Matches(payload, c, d)
    ensures forall n: nat, payload, rest :: n > 0 && Retried(line, n, payload, rest) ==>
      exists junk, p, c, d, tail :: Comes(line, junk, p, c, d, tail) && !Matches(p, c, d) && Retried(tail, n - 1, payload, rest)
  {
    hide Comes, Matches;
  }

  // What the stub takes as the command: the text without the sequence number.
  function Command(payload: seq<int>): seq<int> {
    var t := Text(payload);
    if |t| >= 3 && t[2] == COLON then t[3..] else t
  }

  function SequenceId(payload: seq<int>): seq<int> {
    if |payload| >= 3 && payload[2] == COLON then payload[..2] else []
  }

  // The well-formed packets.
  ghost predicate Arrives(input: seq<int>, junk: seq<int>, payload: seq<int>, rest: seq<int>) {
    input == junk + Frame(payload) + rest && NoStart(junk) && Clean(payload) && |payload| < BUFMAX
  }

  lemma ArrivesComes(input: seq<int>, junk: seq<int>, payload: seq<int>, rest: seq<int>)
    requires Arrives(input, junk, payload, rest)
    ensures var s := Sum(payload) % 256; var c, d := HexChar(s / 16), HexChar(s % 16);
            Comes(input, junk, payload, c, d, rest) && Matches(payload, c, d)
  {
    var s := Sum(payload) % 256;
    HexOfChar(s / 16);
    HexOfChar(s % 16);
  }

  predicate NoStart(s: seq<int>) {
    forall i :: 0 <= i < |s| ==> s[i] % 128 != DOLLAR
  }

  predicate Clean(s: seq<int>) {
    forall i :: 0 <= i < |s| ==> s[i] != HASH && s[i] != BRACE
  }

  lemma SumNothing(s: seq<int>)
    requires s == []
    ensures Sum(s) == 0
  {}

  lemma EndsIs(s: seq<int>, start: nat, j: nat)
    requires start + j < |s|
    ensures Ends(s, start, j) == (s[start + j] == HASH && (j == 0 || s[start + j - 1] != BRACE))
  {}

  lemma SumOne(s: seq<int>, c: int)
    ensures Sum(s + [c]) % 256 == (Sum(s) % 256 + c) % 256
  {
    assert (s + [c])[..|s|] == s;
    ModAdd(Sum(s), c);
  }

  lemma NoFrame(input: seq<int>)
    requires NoStart(input)
    ensures forall junk, payload, c, d, rest :: !Comes(input, junk, payload, c, d, rest)
  {
    forall junk, payload, c, d, rest ensures !Comes(input, junk, payload, c, d, rest) {
      assert (junk + ([DOLLAR] + payload + [HASH, c, d]) + rest)[|junk|] == DOLLAR;
    }
  }

  lemma FrameRead(input: seq<int>, at: nat, start: nat, count: nat, ended: bool)
    requires at < |input| && start == at + 1 && input[at] % 128 == DOLLAR && NoStart(input[..at])
    requires Body(input, start, count, ended)
    ensures forall junk, payload, c, d, rest :: Comes(input, junk, payload, c, d, rest) ==>
        && at == |junk| && count == |payload| && ended && input[start..start + count] == payload
        && start + count + 3 <= |input| && input[start + count + 1] == c && input[start + count + 2] == d
        && input[start + count + 3..] == rest
  {
    forall junk, payload, c, d, rest | Comes(input, junk, payload, c, d, rest)
      ensures at == |junk| && count == |payload| && ended && input[start..start + count] == payload
      ensures start + count + 3 <= |input| && input[start + count + 1] == c && input[start + count + 2] == d
      ensures input[start + count + 3..] == rest
    {
      FrameParts(input, junk, payload, c, d, rest);
      StartFound(input, at, |junk|, junk);
      EndFound(input, start, count, ended, payload);
    }
  }

  lemma NoStartAt(s: seq<int>, i: nat)
    requires NoStart(s) && i < |s|
    ensures s[i] % 128 != DOLLAR
  {}

  lemma CleanAt(payload: seq<int>, s: seq<int>, start: nat, i: nat)
    requires Clean(payload) && i < |payload| && start + |payload| <= |s|
    requires forall j :: 0 <= j < |payload| ==> s[start..][j] == payload[j]
    ensures s[start + i] != HASH
  {
    assert s[start..][i] == payload[i];
  }

  lemma StartFound(input: seq<int>, at: nat, n: nat, junk: seq<int>)
    requires at < |input| && input[at] % 128 == DOLLAR && NoStart(input[..at])
    requires n < |input| && input[..n] == junk && NoStart(junk) && input[n] == DOLLAR
    ensures at == n
  {
    if at < n { NoStartAt(junk, at); }
    if at > n { NoStartAt(input[..at], n); }
  }

  lemma EndFound(input: seq<int>, start: nat, count: nat, ended: bool, payload: seq<int>)
    requires Body(input, start, count, ended) && Clean(payload) && |payload| < BUFMAX
    requires start + |payload| < |input| && input[start + |payload|] == HASH
    requires forall j :: 0 <= j < |payload| ==> input[start..][j] == payload[j]
    ensures count == |payload| && ended
  {
    var m := |payload|;
    assert m > 0 ==> input[start..][m - 1] == payload[m - 1];
    assert Ends(input, start, m);
    if count < m { CleanAt(payload, input, start, count); }
  }

  lemma FrameParts(input: seq<int>, junk: seq<int>, payload: seq<int>, c: int, d: int, rest: seq<int>)
    requires input == junk + ([DOLLAR] + payload + [HASH, c, d]) + rest
    ensures var n, m := |junk|, |payload|;
            && n + m + 4 <= |input| && input[..n] == junk && input[n] == DOLLAR
            && input[n + 1..n + 1 + m] == payload && (forall j :: 0 <= j < m ==> input[n + 1..][j] == payload[j])
            && input[n + 1 + m] == HASH && input[n + m + 2] == c && input[n + m + 3] == d && input[n + m + 4..] == rest
  {
    var n, m, f := |junk|, |payload|, [DOLLAR] + payload + [HASH, c, d];
    assert f[1..m + 1] == payload && forall j :: 0 <= j < m ==> f[1..][j] == payload[j];
    assert input[n..] == f + rest;
    assert forall i :: 0 <= i < m + 4 ==> input[n..][i] == f[i];
    assert input[n + 1..] == input[n..][1..];
  }

  // The command in the buffer after the sequence number is removed.
  lemma CommandIs(before: seq<int>, count: nat, payload: seq<int>)
    requires count < |before| && before[count] == 0 && |before| == BUFMAX + 1
    ensures count == |payload| && before[..count] == payload ==>
      && Command(payload) == (if before[2] == COLON && |Text(before)| >= 3 then Text(before)[3..] else Text(before))
      && (|payload| >= 2 ==> SequenceId(payload) == if before[2] == COLON then before[..2] else [])
  {
    TextStops(before, count);
    if count == |payload| && before[..count] == payload && |Text(before)| >= 3 {
      assert Text(before)[2] == before[2];
    }
  }

  // What the stub sends for any bytes, a receiver that undoes the encoding gets back, whatever
  // came before and comes after it on the line, as long as the packet fits the buffer.
  method Carry(data: seq<Byte>, junk: seq<int>, rest: seq<int>, out: array<int>) returns (got: int)
    requires NoStart(junk) && |Encode(data, true)| < BUFMAX && out.Length >= |data|
    modifies out
    ensures got == 0 && out[..|data|] == data
  {
    var frags := [Fragment(data, true)];
    var frame := SendFrame(frags);
    OneFragment(data);
    PayloadClean(frags);
    RoundTrip(data);
    ExpandEncode(data, true, []);
    assert Encode(data, true) + [] == Encode(data, true) && HexAll(data) + [] == HexAll(data);
    hide Encode, Frame, Clean, Unhex, Payload, Expand, HexAll;
    var input := junk + frame + rest;
    ArrivesComes(input, junk, Payload(frags), rest);
    hide Comes, Matches;
    var buffer := new int[BUFMAX + 1];
    var starved, count, marked, good, used := ReadFrame(input, buffer);
    var chars := Expand(buffer[..count]);
    assert chars[..2 * |data|] == chars;
    got := Hex2Bin(chars, out, |data|);
  }

  lemma OneFragment(data: seq<Byte>)
    ensures Payload([Fragment(data, true)]) == Encode(data, true)
  {
    PayloadFirst([Fragment(data, true)]);
  }
}
