/**
 Credential generation and validation (crates/chisl-auth/src/password.rs and validation.rs).

 The random bytes are an input.  Passwords and user names are strings; `Utf8Length` gives
 their length in bytes, which is what the length rules count.
 */
module Passwords {
  import opened Wrappers

  newtype byte = x: int | 0 <= x < 256

  const LOWER := "abcdefghijklmnopqrstuvwxyz"
  const UPPER := "ABCDEFGHIJKLMNOPQRSTUVWXYZ"
  const DIGITS := "0123456789"
  const SPECIAL := "!@#$%^&*"
  const ALPHANUMERIC_LOWER := LOWER + DIGITS
  const ALL_PASSWORD_CHARS := UPPER + LOWER + DIGITS + SPECIAL

  // ------------------------------------------------------------------
  // Validation
  // ------------------------------------------------------------------

  const MIN_PASSWORD_LENGTH := 8
  const MAX_PASSWORD_LENGTH := 128
  const MIN_USERNAME_LENGTH := 3
  const MAX_USERNAME_LENGTH := 32
  const WEAK_PASSWORDS := ["password", "12345678", "123456789", "qwertyui", "abcdefgh"]

  datatype AuthError = TooShort | TooLong | TooCommon | BadCharacter | BadEnd

  function Utf8Length(s: string): nat {
    if s == "" then 0 else
    Utf8Length(s[..|s| - 1])
    + (var c := s[|s| - 1] as int; if c < 0x80 then 1 else if c < 0x800 then 2 else if c < 0x1_0000 then 3 else 4)
  }

  function ToLowercase(s: string): string {
    seq(|s|, i requires 0 <= i < |s| => if 'A' <= s[i] <= 'Z' then (s[i] as int + 32) as char else s[i])
  }

  function ValidatePassword(password: string): Result<(), AuthError> {
    if Utf8Length(password) < MIN_PASSWORD_LENGTH then Failure(TooShort)
    else if Utf8Length(password) > MAX_PASSWORD_LENGTH then Failure(TooLong)
    else if ToLowercase(password) in WEAK_PASSWORDS then Failure(TooCommon)
    else Success(())
  }

  predicate IsAsciiAlphanumeric(c: char) {
    'a' <= c <= 'z' || 'A' <= c <= 'Z' || '0' <= c <= '9'
  }

  predicate IsJoiner(c: char) {
    c == '-' || c == '_'
  }

  function ValidateUsername(username: string): Result<(), AuthError> {
    if Utf8Length(username) < MIN_USERNAME_LENGTH then Failure(TooShort)
    else if Utf8Length(username) > MAX_USERNAME_LENGTH then Failure(TooLong)
    else if exists c | c in username :: !IsAsciiAlphanumeric(c) && !IsJoiner(c) then Failure(BadCharacter)
    else if username != "" && (IsJoiner(username[0]) || IsJoiner(username[|username| - 1])) then Failure(BadEnd)
    else Success(())
  }

  // ------------------------------------------------------------------
  // The shuffle
  // ------------------------------------------------------------------

  function Swapped<T>(s: seq<T>, i: nat, j: nat): seq<T>
    requires i < |s| && j < |s|
  {
    s[i := s[j]][j := s[i]]
  }

  /** Which position the swap at i takes its element from. */
  function SwapIndex(b: byte, i: nat): (j: nat)
    ensures j <= i && j <= b as nat
    ensures b as nat <= i ==> j == b as nat
  {
    b as nat % (i + 1)
  }

  /** Counting the byte up by the number of positions comes back to the same one. */
  lemma SwapIndexRepeats(b: byte, i: nat)
    requires b as nat + i + 1 < 256
    ensures SwapIndex((b as nat + i + 1) as byte, i) == SwapIndex(b, i)
  {
    ModuloRepeats(b as nat, i + 1);
  }

  lemma ModuloRepeats(x: nat, n: nat)
    requires n > 0
    ensures (x + n) % n == x % n
  {
    var q, r := x / n, x % n;
    assert x + n == (q + 1) * n + r;
    RemainderIs(x + n, q + 1, n, r);
  }

  lemma Distribute(a: int, b: int, n: int)
    ensures (a - b) * n == a * n - b * n
  {
  }

  lemma AtLeastOnce(k: int, n: int)
    requires k >= 1 && n >= 0
    ensures k * n >= n
  {
  }

  lemma RemainderIs(x: nat, q: nat, n: nat, r: nat)
    requires r < n && x == q * n + r
    ensures x % n == r
  {
    var q' := x / n;
    Distribute(q, q', n);
    Distribute(q', q, n);
    if q > q' {
      AtLeastOnce(q - q', n);
    } else if q < q' {
      AtLeastOnce(q' - q, n);
    }
  }

  /** The effect of the swaps at positions i, i - 1, ..., 1. */
  function Shuffled<T>(s: seq<T>, bytes: seq<byte>, i: nat): (r: seq<T>)
    requires |s| <= |bytes| && (i < |s| || i == 0)
    ensures |r| == |s|
    decreases i
  {
    if i == 0 then s else Shuffled(Swapped(s, i, SwapIndex(bytes[i], i)), bytes, i - 1)
  }

  /** The whole loop, from the last position down. */
  function FisherYates<T>(s: seq<T>, bytes: seq<byte>): (r: seq<T>)
    requires |bytes| == |s|
    ensures |r| == |s|
  {
    Shuffled(s, bytes, if s == [] then 0 else |s| - 1)
  }

  method Shuffle<T>(chars: array<T>, bytes: seq<byte>)
    requires |bytes| == chars.Length
    modifies chars
    ensures chars[..] == FisherYates(old(chars[..]), bytes)
    ensures multiset(chars[..]) == multiset(old(chars[..]))
  {
    var i := chars.Length - 1;
    while i >= 1
      invariant chars.Length > 0 ==> 0 <= i < chars.Length
      invariant chars.Length > 0 ==> Shuffled(chars[..], bytes, i) == FisherYates(old(chars[..]), bytes)
    {
      var j := bytes[i] as int % (i + 1);
      ghost var before := chars[..];
      chars[i], chars[j] := chars[j], chars[i];
      assert chars[..] == Swapped(before, i, j);
      i := i - 1;
    }
    FisherYatesPermutes(old(chars[..]), bytes);
  }

  lemma SwappedIsPermutation<T>(s: seq<T>, i: nat, j: nat)
    requires i < |s| && j < |s|
    ensures multiset(Swapped(s, i, j)) == multiset(s)
  {
  }

  ghost predicate Permutation<T>(s: seq<T>, t: seq<T>) {
    multiset(s) == multiset(t)
  }

  ghost predicate Produces<T>(s: seq<T>, t: seq<T>) {
    exists bytes: seq<byte> :: |bytes| == |s| && FisherYates(s, bytes) == t
  }

  lemma {:induction false} ShuffledPermutes<T>(s: seq<T>, bytes: seq<byte>, i: nat)
    requires i < |s| <= |bytes|
    ensures Permutation(s, Shuffled(s, bytes, i)) && Shuffled(s, bytes, i)[i + 1..] == s[i + 1..]
    decreases i
  {
    if i > 0 {
      var j := SwapIndex(bytes[i], i);
      SwappedIsPermutation(s, i, j);
      ShuffledPermutes(Swapped(s, i, j), bytes, i - 1);
      SwapLeavesLater(s, Shuffled(s, bytes, i), i, j);
    }
  }

  lemma SwapLeavesLater<T>(s: seq<T>, r: seq<T>, i: nat, j: nat)
    requires j <= i < |s| == |r| && r[i..] == Swapped(s, i, j)[i..]
    ensures r[i + 1..] == s[i + 1..]
  {
    assert r[i + 1..] == r[i..][1..] && Swapped(s, i, j)[i + 1..] == Swapped(s, i, j)[i..][1..];
    assert Swapped(s, i, j)[i + 1..] == s[i + 1..];
  }

  /** The last swap to be made first: its byte says what ends up last, and the rest is shuffled by the other bytes. */
  lemma FisherYatesLast<T>(s: seq<T>, bytes: seq<byte>)
    requires |bytes| == |s| > 1
    ensures var n := |s| - 1;
            var j := SwapIndex(bytes[n], n);
            FisherYates(s, bytes) == FisherYates(Swapped(s, n, j)[..n], bytes[..n]) + [s[j]]
  {
    var n := |s| - 1;
    var s' := Swapped(s, n, SwapIndex(bytes[n], n));
    ShuffledBelow(s', bytes, n - 1, n);
    assert s' == s'[..n] + [s'[n]];
  }

  /** Swaps below a position work on what is below it. */
  lemma {:induction false} ShuffledBelow<T>(s: seq<T>, bytes: seq<byte>, i: nat, n: nat)
    requires i < n <= |s| <= |bytes|
    ensures Shuffled(s, bytes, i) == Shuffled(s[..n], bytes[..n], i) + s[n..]
    decreases i
  {
    if i == 0 {
      assert s == s[..n] + s[n..];
    } else {
      var j := SwapIndex(bytes[i], i);
      ShuffledBelow(Swapped(s, i, j), bytes, i - 1, n);
      assert Swapped(s, i, j)[..n] == Swapped(s[..n], i, j) && Swapped(s, i, j)[n..] == s[n..];
    }
  }

  lemma FisherYatesPermutes<T>(s: seq<T>, bytes: seq<byte>)
    requires |bytes| == |s|
    ensures Permutation(s, FisherYates(s, bytes))
  {
    if s != [] {
      ShuffledPermutes(s, bytes, |s| - 1);
    }
  }

  /** Bytes the swaps do not look at do not matter. */
  lemma {:induction false} ShuffledAgrees<T>(s: seq<T>, a: seq<byte>, b: seq<byte>, i: nat)
    requires i < |s| <= |a| && |s| <= |b| && forall k | 1 <= k <= i :: a[k] == b[k]
    ensures Shuffled(s, a, i) == Shuffled(s, b, i)
    decreases i
  {
    if i > 0 {
      ShuffledAgrees(Swapped(s, i, SwapIndex(a[i], i)), a, b, i - 1);
    }
  }

  /** Up to 256 elements every rearrangement of the first i + 1 has bytes that make it. */
  lemma {:induction false} BytesFor<T>(s: seq<T>, t: seq<T>, i: nat) returns (bytes: seq<byte>)
    requires i < |s| == |t| <= 256 && Permutation(s, t) && s[i + 1..] == t[i + 1..]
    ensures |bytes| == |s| && Shuffled(s, bytes, i) == t
    decreases i
  {
    var j := Source(s, t, i);
    SwapSettles(s, t, i, j);
    if i == 0 {
      bytes := seq(|s|, k => 0);
    } else {
      var rest := BytesFor(Swapped(s, i, j), t, i - 1);
      bytes := rest[i := j as byte];
      ChooseSwap(s, rest, i, j as byte);
    }
  }

  lemma SwapSettles<T>(s: seq<T>, t: seq<T>, i: nat, j: nat)
    requires i < |s| == |t| && Permutation(s, t) && s[i + 1..] == t[i + 1..] && j <= i && s[j] == t[i]
    ensures Permutation(Swapped(s, i, j), t) && Swapped(s, i, j)[i..] == t[i..]
    ensures i == 0 ==> s == t
  {
    var s' := Swapped(s, i, j);
    SwappedIsPermutation(s, i, j);
    assert s'[i] == t[i] && s'[i + 1..] == s[i + 1..];
    assert s'[i..] == [s'[i]] + s'[i + 1..] && t[i..] == [t[i]] + t[i + 1..];
    if i == 0 {
      assert s' == s && s == s[0..] && t == t[0..];
    }
  }

  /** Setting the byte of position i to j makes that swap and leaves the later ones alone. */
  lemma ChooseSwap<T>(s: seq<T>, rest: seq<byte>, i: nat, j: byte)
    requires 0 < i < |s| <= |rest| && j as nat <= i
    ensures Shuffled(s, rest[i := j], i) == Shuffled(Swapped(s, i, j as nat), rest, i - 1)
  {
    var bytes := rest[i := j];
    assert bytes[i] == j;
    ShuffledAgrees(Swapped(s, i, j as nat), rest, bytes, i - 1);
  }

  /** Where the element that belongs at position i is now. */
  lemma Source<T>(s: seq<T>, t: seq<T>, i: nat) returns (j: nat)
    requires i < |s| == |t| && Permutation(s, t) && s[i + 1..] == t[i + 1..]
    ensures j <= i && s[j] == t[i]
  {
    SamePrefix(s, t, i);
    assert t[i] == t[..i + 1][i];
    assert t[i] in multiset(t[..i + 1]);
    assert t[i] in s[..i + 1];
    j :| 0 <= j < |s[..i + 1]| && s[..i + 1][j] == t[i];
  }

  lemma SamePrefix<T>(s: seq<T>, t: seq<T>, i: nat)
    requires i < |s| == |t| && Permutation(s, t) && s[i + 1..] == t[i + 1..]
    ensures multiset(s[..i + 1]) == multiset(t[..i + 1])
  {
    assert s == s[..i + 1] + s[i + 1..] && t == t[..i + 1] + t[i + 1..];
    assert multiset(s[..i + 1]) == multiset(s) - multiset(s[i + 1..]);
    assert multiset(t[..i + 1]) == multiset(t) - multiset(t[i + 1..]);
  }

  /** Every order comes up for some bytes, but only up to the 256 values of a byte. */
  lemma EveryPermutationIffAtMost256(n: nat)
    ensures (forall s: string, t: string | |s| == n && Permutation(s, t) :: Produces(s, t)) <==> n <= 256
  {
    if n <= 256 {
      forall s: string, t: string | |s| == n && Permutation(s, t) ensures Produces(s, t) {
        assert |s| == |multiset(s)| && |t| == |multiset(t)|;
        if n > 0 {
          var bytes := BytesFor(s, t, n - 1);
          assert FisherYates(s, bytes) == t;
        } else {
          var bytes: seq<byte> := [];
          assert FisherYates(s, bytes) == t;
        }
      }
    } else {
      var s := seq(n, i => if i == n - 1 then 'b' else 'a');
      assert Permutation(s, s);
      forall bytes: seq<byte> | |bytes| == n ensures FisherYates(s, bytes) != s {
        LastComesFromBelow256(s, bytes);
      }
    }
  }

  /** The swap at position i >= 256 always brings in one of the first 256 elements. */
  lemma LastComesFromBelow256<T>(s: seq<T>, bytes: seq<byte>)
    requires |bytes| == |s| > 256
    ensures FisherYates(s, bytes)[|s| - 1] in s[..256]
  {
    var i := |s| - 1;
    var j := SwapIndex(bytes[i], i);
    var s' := Swapped(s, i, j);
    ShuffledPermutes(s', bytes, i - 1);
    assert Shuffled(s', bytes, i - 1)[i..] == s'[i..];
    assert s'[i] == s[..256][j];
  }

  // ------------------------------------------------------------------
  // Generation
  // ------------------------------------------------------------------

  /** The operating system's random bytes, in the order they are handed out. */
  class RandomSource {
    var stream: seq<byte>

    constructor (stream: seq<byte>)
      ensures this.stream == stream
    {
      this.stream := stream;
    }

    method Fill(n: nat) returns (buf: seq<byte>)
      requires n <= |stream|
      modifies this
      ensures buf == old(stream)[..n] && stream == old(stream)[n..]
    {
      buf := stream[..n];
      stream := stream[n..];
    }
  }

  function Max(a: nat, b: nat): nat {
    if a < b then b else a
  }

  function LittleEndian32(buf: seq<byte>): nat
    requires |buf| == 4
  {
    buf[0] as nat + 0x100 * buf[1] as nat + 0x1_0000 * buf[2] as nat + 0x100_0000 * buf[3] as nat
  }

  /** The number that four bytes give, the first the least significant, is taken modulo the length of the range. */
  lemma InRangeIsRemainder(min: nat, maxExclusive: nat, buf: seq<byte>) returns (q: nat)
    requires min < maxExclusive && |buf| == 4
    ensures buf[0] as nat + 256 * buf[1] as nat + 65536 * buf[2] as nat + 16777216 * buf[3] as nat ==
            q * (maxExclusive - min) + (InRange(min, maxExclusive, buf) - min)
  {
    q := LittleEndian32(buf) / (maxExclusive - min);
  }

  lemma DigitsOf(d: nat) returns (buf: seq<byte>)
    requires d < 0x1_0000_0000
    ensures |buf| == 4 && LittleEndian32(buf) == d
  {
    var d1 := d / 256;
    var d2 := d1 / 256;
    var d3 := d2 / 256;
    buf := [(d % 256) as byte, (d1 % 256) as byte, (d2 % 256) as byte, d3 as byte];
  }

  /** Every number of a range of at most 2 ^ 32 comes up. */
  lemma InRangeReaches(min: nat, maxExclusive: nat, v: nat) returns (buf: seq<byte>)
    requires min <= v < maxExclusive && v - min < 0x1_0000_0000
    ensures |buf| == 4 && InRange(min, maxExclusive, buf) == v
  {
    buf := DigitsOf(v - min);
    RemainderIs(v - min, 0, maxExclusive - min, v - min);
  }

  function InRange(min: nat, maxExclusive: nat, buf: seq<byte>): (r: nat)
    requires min < maxExclusive && |buf| == 4
    ensures min <= r < maxExclusive
  {
    min + LittleEndian32(buf) % (maxExclusive - min)
  }

  type Charset = s: string | s != "" witness "a"

  function Pick(charset: Charset, b: byte): (c: char)
    ensures c in charset
  {
    charset[b as nat % |charset|]
  }

  /** The first bytes pick the characters one by one, and then the same again. */
  lemma PickGoesRound(charset: Charset, b: byte)
    ensures b as nat < |charset| ==> Pick(charset, b) == charset[b as nat]
    ensures b as nat + |charset| < 256 ==> Pick(charset, (b as nat + |charset|) as byte) == Pick(charset, b)
  {
    if b as nat < |charset| {
      RemainderIs(b as nat, 0, |charset|, b as nat);
    }
    ModuloRepeats(b as nat, |charset|);
  }

  lemma PickReaches(charset: Charset, c: char) returns (b: byte)
    requires c in charset && |charset| <= 256
    ensures Pick(charset, b) == c
  {
    var i :| 0 <= i < |charset| && charset[i] == c;
    b := i as byte;
    PickGoesRound(charset, b);
  }

  /** What position i of a password is drawn from, before the shuffle. */
  function CharsetAt(i: nat): Charset {
    if i == 0 then UPPER else if i == 1 then LOWER else if i == 2 then DIGITS else if i == 3 then SPECIAL
    else ALL_PASSWORD_CHARS
  }

  function Draw(charsetOf: nat -> Charset, picks: seq<byte>): string {
    if picks == [] then "" else
    Draw(charsetOf, picks[..|picks| - 1]) + [Pick(charsetOf(|picks| - 1), picks[|picks| - 1])]
  }

  function Drawn(picks: seq<byte>): string {
    Draw(CharsetAt, picks)
  }

  function RandomString(charset: Charset, buf: seq<byte>): string {
    Draw(_ => charset, buf)
  }

  function StrongPassword(picks: seq<byte>, shuffle: seq<byte>): string
    requires |picks| == |shuffle|
  {
    DrawLength(CharsetAt, picks);
    FisherYates(Drawn(picks), shuffle)
  }

  lemma {:induction false} DrawLength(charsetOf: nat -> Charset, picks: seq<byte>)
    ensures |Draw(charsetOf, picks)| == |picks|
  {
    if picks != [] {
      DrawLength(charsetOf, picks[..|picks| - 1]);
    }
  }

  /** One byte for each position. */
  lemma {:induction false} DrawAt(charsetOf: nat -> Charset, picks: seq<byte>, i: nat)
    requires i < |picks| == |Draw(charsetOf, picks)|
    ensures Draw(charsetOf, picks)[i] == Pick(charsetOf(i), picks[i])
    ensures Draw(charsetOf, picks)[i] in charsetOf(i)
  {
    var init := picks[..|picks| - 1];
    DrawLength(charsetOf, init);
    if i < |init| {
      DrawAt(charsetOf, init, i);
    }
  }

  method RandomFrom(charset: Charset, rnd: RandomSource) returns (c: char)
    requires |rnd.stream| >= 1
    modifies rnd
    ensures c == Pick(charset, old(rnd.stream)[0]) && rnd.stream == old(rnd.stream)[1..]
  {
    var buf := rnd.Fill(1);
    c := charset[buf[0] as int % |charset|];
  }

  method DrawClasses(rnd: RandomSource) returns (chars: string)
    requires |rnd.stream| >= 4
    modifies rnd
    ensures chars == FirstFour(old(rnd.stream)) && rnd.stream == old(rnd.stream)[4..]
  {
    var upper := RandomFrom(UPPER, rnd);
    var lower := RandomFrom(LOWER, rnd);
    var digit := RandomFrom(DIGITS, rnd);
    var special := RandomFrom(SPECIAL, rnd);
    chars := [upper, lower, digit, special];
  }

  function FirstFour(stream: seq<byte>): string
    requires |stream| >= 4
  {
    [Pick(UPPER, stream[0]), Pick(LOWER, stream[1]), Pick(DIGITS, stream[2]), Pick(SPECIAL, stream[3])]
  }

  lemma FirstFourAreDrawn(stream: seq<byte>)
    requires |stream| >= 4
    ensures FirstFour(stream) == Drawn(stream[..4])
  {
    assert stream[..0] == [] && Draw(CharsetAt, []) == "";
    hide Draw;
    DrawNext(CharsetAt, stream, 0);
    DrawNext(CharsetAt, stream, 1);
    DrawNext(CharsetAt, stream, 2);
    DrawNext(CharsetAt, stream, 3);
  }

  /** One character of each class, then the remaining positions from the full set. */
  method DrawChars(len: nat, rnd: RandomSource) returns (chars: string)
    requires |rnd.stream| >= Max(len, 4)
    modifies rnd
    ensures chars == Drawn(old(rnd.stream)[..Max(len, 4)]) && rnd.stream == old(rnd.stream)[Max(len, 4)..]
  {
    ghost var stream := rnd.stream;
    chars := DrawClasses(rnd);
    FirstFourAreDrawn(stream);
    for i := 4 to Max(len, 4)
      invariant rnd.stream == stream[i..]
      invariant chars == Drawn(stream[..i])
    {
      var c := RandomFrom(ALL_PASSWORD_CHARS, rnd);
      DrawNext(CharsetAt, stream, i);
      chars := chars + [c];
    }
  }

  lemma DrawNext(charsetOf: nat -> Charset, stream: seq<byte>, i: nat)
    requires i < |stream|
    ensures Draw(charsetOf, stream[..i + 1]) == Draw(charsetOf, stream[..i]) + [Pick(charsetOf(i), stream[i])]
  {
    assert stream[..i + 1][..i] == stream[..i];
  }

  method GenerateStrongPassword(len: nat, rnd: RandomSource) returns (r: string)
    requires |rnd.stream| >= 2 * Max(len, 4)
    modifies rnd
    ensures var n := Max(len, 4);
            && r == StrongPassword(old(rnd.stream)[..n], old(rnd.stream)[n..2 * n])
            && rnd.stream == old(rnd.stream)[2 * n..]
  {
    hide Draw, FisherYates;
    ghost var stream := rnd.stream;
    var n := Max(len, 4);
    var chars := DrawChars(len, rnd);
    DrawLength(CharsetAt, stream[..n]);
    var shuffleBytes := rnd.Fill(n);
    assert shuffleBytes == stream[n..2 * n];
    var a := new char[n](i requires 0 <= i < |chars| => chars[i]);
    assert a[..] == chars;
    Shuffle(a, shuffleBytes);
    r := a[..];
  }

  method GeneratePassword(len: nat, rnd: RandomSource) returns (r: string)
    requires |rnd.stream| >= 2 * Max(len, 4)
    modifies rnd
    ensures |r| == Max(len, 4)
    ensures ValidatePassword(r).Success? <==> 8 <= len <= 128
    ensures var n := Max(len, 4);
            && r == StrongPassword(old(rnd.stream)[..n], old(rnd.stream)[n..2 * n])
            && rnd.stream == old(rnd.stream)[2 * n..]
  {
    ghost var stream, n := rnd.stream, Max(len, 4);
    r := GenerateStrongPassword(Max(len, 4), rnd);
    StrongPasswordClasses(stream[..n], stream[n..2 * n]);
    StrongPasswordValidates(stream[..n], stream[n..2 * n]);
  }

  /** Four bytes for each length, then the user name's, the password's and its shuffle's. */
  function Credentials(stream: seq<byte>): (string, string)
    requires |stream| >= 50
  {
    var n, m := InRange(6, 9, stream[..4]), InRange(12, 18, stream[4..8]);
    (RandomString(ALPHANUMERIC_LOWER, stream[8..8 + n]),
     StrongPassword(stream[8 + n..8 + n + m], stream[8 + n + m..8 + n + 2 * m]))
  }

  lemma CredentialSlices(start: seq<byte>, n: nat, m: nat)
    requires 8 + n + 2 * m <= |start|
    ensures start[4..][..4] == start[4..8] && start[4..][4..] == start[8..]
    ensures start[8..][..n] == start[8..8 + n] && start[8..][n..] == start[8 + n..]
    ensures start[8 + n..][..m] == start[8 + n..8 + n + m]
    ensures start[8 + n..][m..2 * m] == start[8 + n + m..8 + n + 2 * m]
  {
  }

  method GenerateUserCredentials(rnd: RandomSource) returns (username: string, password: string)
    requires |rnd.stream| >= 50
    modifies rnd
    ensures (username, password) == Credentials(old(rnd.stream))
    ensures |rnd.stream| == |old(rnd.stream)| - 8 - |username| - 2 * |password|
    ensures 6 <= |username| <= 8 && ValidateUsername(username) == Success(())
    ensures 12 <= |password| <= 17 && ValidatePassword(password) == Success(())
  {
    hide InRange, RandomString, StrongPassword, ValidateUsername, ValidatePassword;
    ghost var start := rnd.stream;
    var buf := rnd.Fill(4);
    var usernameLen := InRange(6, 9, buf);
    buf := rnd.Fill(4);
    var passwordLen := InRange(12, 18, buf);
    CredentialSlices(start, usernameLen, passwordLen);
    buf := rnd.Fill(usernameLen);
    username := RandomString(ALPHANUMERIC_LOWER, buf);
    GeneratedUsernameValidates(buf);
    ghost var stream := rnd.stream;
    password := GenerateStrongPassword(passwordLen, rnd);
    ValidFrom12To17(stream[..passwordLen], stream[passwordLen..2 * passwordLen]);
  }

  lemma ValidFrom12To17(picks: seq<byte>, shuffle: seq<byte>)
    requires 12 <= |picks| == |shuffle| <= 17
    ensures |StrongPassword(picks, shuffle)| == |picks|
    ensures ValidatePassword(StrongPassword(picks, shuffle)) == Success(())
  {
    hide StrongPassword, WEAK_PASSWORDS, ToLowercase;
    StrongPasswordClasses(picks, shuffle);
    StrongPasswordValidates(picks, shuffle);
  }

  // ------------------------------------------------------------------
  // What is generated validates
  // ------------------------------------------------------------------

  predicate IsUpper(c: char) { 'A' <= c <= 'Z' }

  predicate IsLower(c: char) { 'a' <= c <= 'z' }

  predicate IsDigit(c: char) { '0' <= c <= '9' }

  predicate IsSpecial(c: char) {
    c == '!' || c == '@' || c == '#' || c == '$' || c == '%' || c == '^' || c == '&' || c == '*'
  }

  /** The characters a generated password may hold. */
  predicate IsPasswordChar(c: char) {
    IsUpper(c) || IsLower(c) || IsDigit(c) || IsSpecial(c)
  }

  ghost predicate Has(s: string, class_: char -> bool) {
    exists c :: c in s && class_(c)
  }

  lemma UpperClass(c: char)
    ensures c in UPPER ==> IsUpper(c)
  {
  }

  lemma LowerClass(c: char)
    ensures c in LOWER ==> IsLower(c)
  {
  }

  lemma CharsetClasses(c: char)
    ensures c in UPPER ==> IsUpper(c)
    ensures c in LOWER ==> IsLower(c)
    ensures c in DIGITS ==> IsDigit(c)
  {
    UpperClass(c);
    LowerClass(c);
  }

  lemma MixedCharsetClasses(c: char)
    ensures c in ALPHANUMERIC_LOWER ==> IsLower(c) || IsDigit(c)
    ensures c in ALL_PASSWORD_CHARS ==> IsPasswordChar(c)
  {
    CharsetClasses(c);
  }

  lemma DrawnClass(picks: seq<byte>, i: nat)
    requires i < |picks| == |Drawn(picks)|
    ensures var c := Drawn(picks)[i];
            && IsPasswordChar(c) && (i == 0 ==> IsUpper(c)) && (i == 1 ==> IsLower(c)) && (i == 2 ==> IsDigit(c))
            && (i == 3 ==> IsSpecial(c))
  {
    DrawAt(CharsetAt, picks, i);
    CharsetClasses(Drawn(picks)[i]);
    MixedCharsetClasses(Drawn(picks)[i]);
  }

  lemma ShuffleKeepsMembers(s: string, bytes: seq<byte>)
    requires |bytes| == |s|
    ensures forall c :: c in FisherYates(s, bytes) <==> c in s
  {
    if s != "" {
      ShuffledPermutes(s, bytes, |s| - 1);
      var r := FisherYates(s, bytes);
      assert forall c :: c in r <==> c in multiset(r);
      assert forall c :: c in s <==> c in multiset(s);
    }
  }

  /** After the shuffle there is still one character of each class, and nothing outside them. */
  lemma StrongPasswordClasses(picks: seq<byte>, shuffle: seq<byte>)
    requires |picks| == |shuffle| >= 4
    ensures |StrongPassword(picks, shuffle)| == |picks|
    ensures var r := StrongPassword(picks, shuffle);
            Has(r, IsUpper) && Has(r, IsLower) && Has(r, IsDigit) && Has(r, IsSpecial)
    ensures forall c | c in StrongPassword(picks, shuffle) :: IsPasswordChar(c)
  {
    var drawn, r := Drawn(picks), StrongPassword(picks, shuffle);
    DrawLength(CharsetAt, picks);
    ShuffleKeepsMembers(drawn, shuffle);
    DrawnClass(picks, 0);
    DrawnClass(picks, 1);
    DrawnClass(picks, 2);
    DrawnClass(picks, 3);
    assert drawn[0] in r && drawn[1] in r && drawn[2] in r && drawn[3] in r;
    forall c | c in r ensures IsPasswordChar(c) {
      var i :| 0 <= i < |drawn| && drawn[i] == c;
      DrawnClass(picks, i);
    }
  }

  lemma {:induction false} AsciiLength(s: string)
    requires forall i | 0 <= i < |s| :: s[i] as int < 0x80
    ensures Utf8Length(s) == |s|
  {
    if s != "" {
      AsciiLength(s[..|s| - 1]);
    }
  }

  lemma WeakPasswordsHaveNoSpecial(s: string)
    requires Has(s, IsSpecial)
    ensures ToLowercase(s) !in WEAK_PASSWORDS
  {
    var c :| c in s && IsSpecial(c);
    var i :| 0 <= i < |s| && s[i] == c;
    assert ToLowercase(s)[i] == c;
    forall k | 0 <= k < |WEAK_PASSWORDS| ensures c !in WEAK_PASSWORDS[k] {
      SpecialIsNotAlphanumeric(c);
    }
  }

  lemma SpecialIsNotAlphanumeric(c: char)
    requires IsSpecial(c)
    ensures !IsLower(c) && !IsUpper(c) && !IsDigit(c)
  {
  }

  lemma StrongPasswordValidates(picks: seq<byte>, shuffle: seq<byte>)
    requires |picks| == |shuffle| >= 4
    ensures ValidatePassword(StrongPassword(picks, shuffle)).Success? <==> 8 <= |picks| <= 128
  {
    var r := StrongPassword(picks, shuffle);
    StrongPasswordClasses(picks, shuffle);
    forall i | 0 <= i < |r| ensures r[i] as int < 0x80 {
      assert r[i] in r && IsPasswordChar(r[i]);
    }
    AsciiLength(r);
    WeakPasswordsHaveNoSpecial(r);
  }

  lemma AlphanumericUsernameValidates(s: string)
    requires 3 <= |s| <= 32 && forall i | 0 <= i < |s| :: IsAsciiAlphanumeric(s[i])
    ensures ValidateUsername(s) == Success(())
  {
    AsciiLength(s);
  }

  lemma GeneratedUsernameValidates(buf: seq<byte>)
    requires 3 <= |buf| <= 32
    ensures |RandomString(ALPHANUMERIC_LOWER, buf)| == |buf|
    ensures ValidateUsername(RandomString(ALPHANUMERIC_LOWER, buf)) == Success(())
  {
    var charset := ALPHANUMERIC_LOWER;
    var s := RandomString(charset, buf);
    DrawLength(_ => charset, buf);
    forall i | 0 <= i < |s| ensures IsAsciiAlphanumeric(s[i]) {
      DrawAt(_ => charset, buf, i);
      MixedCharsetClasses(s[i]);
    }
    AlphanumericUsernameValidates(s);
  }

  // ------------------------------------------------------------------
  // What can be generated
  // ------------------------------------------------------------------

  lemma UpperIsDrawn(c: char)
    requires IsUpper(c)
    ensures c in UPPER
  {
    assert UPPER[c as int - 'A' as int] == c;
  }

  lemma LowerIsDrawn(c: char)
    requires IsLower(c)
    ensures c in LOWER
  {
    assert LOWER[c as int - 'a' as int] == c;
  }

  lemma DigitIsDrawn(c: char)
    requires IsDigit(c)
    ensures c in DIGITS
  {
    assert DIGITS[c as int - '0' as int] == c;
  }

  lemma SpecialIsDrawn(c: char)
    requires IsSpecial(c)
    ensures c in SPECIAL
  {
    assert SPECIAL[0] == '!' && SPECIAL[1] == '@' && SPECIAL[2] == '#' && SPECIAL[3] == '$';
    assert SPECIAL[4] == '%' && SPECIAL[5] == '^' && SPECIAL[6] == '&' && SPECIAL[7] == '*';
  }

  lemma PasswordCharIsDrawn(c: char)
    requires IsPasswordChar(c)
    ensures c in ALL_PASSWORD_CHARS
  {
    if IsUpper(c) {
      UpperIsDrawn(c);
    } else if IsLower(c) {
      LowerIsDrawn(c);
    } else if IsDigit(c) {
      DigitIsDrawn(c);
    } else {
      SpecialIsDrawn(c);
    }
  }

  /** Bytes that draw a given text from charsets that hold its characters. */
  lemma {:induction false} BytesToDraw(charsetOf: nat -> Charset, s: string) returns (picks: seq<byte>)
    requires forall i | 0 <= i < |s| :: s[i] in charsetOf(i) && |charsetOf(i)| <= 256
    ensures |picks| == |s| && Draw(charsetOf, picks) == s
  {
    if s == "" {
      picks := [];
    } else {
      var n := |s| - 1;
      var rest := BytesToDraw(charsetOf, s[..n]);
      var b := PickReaches(charsetOf(n), s[n]);
      picks := rest + [b];
      assert picks[..n] == rest && s == s[..n] + [s[n]];
    }
  }

  /** The characters of a bag in some order. */
  lemma {:induction false} TextOf(bag: multiset<char>) returns (s: string)
    ensures multiset(s) == bag
    decreases |bag|
  {
    if bag == multiset{} {
      s := "";
    } else {
      var c :| c in bag;
      var rest := TextOf(bag - multiset{c});
      s := rest + [c];
    }
  }

  lemma FourApart(u: char, l: char, d: char, x: char)
    requires IsUpper(u) && IsLower(l) && IsDigit(d) && IsSpecial(x)
    ensures u != l && u != d && u != x && l != d && l != x && d != x
  {
    SpecialIsNotAlphanumeric(x);
  }

  /** The text with one character of each class moved to the front. */
  lemma ClassesFirst(t: string) returns (s: string)
    requires |t| >= 4 && Has(t, IsUpper) && Has(t, IsLower) && Has(t, IsDigit) && Has(t, IsSpecial)
    ensures |s| == |t| && Permutation(s, t)
    ensures IsUpper(s[0]) && IsLower(s[1]) && IsDigit(s[2]) && IsSpecial(s[3])
  {
    hide IsUpper, IsLower, IsDigit, IsSpecial;
    var u :| u in t && IsUpper(u);
    var l :| l in t && IsLower(l);
    var d :| d in t && IsDigit(d);
    var x :| x in t && IsSpecial(x);
    FourApart(u, l, d, x);
    FourAmong(t, u, l, d, x);
    var rest := TextOf(multiset(t) - multiset{u, l, d, x});
    s := [u, l, d, x] + rest;
    FourInFront(t, rest, u, l, d, x);
  }

  lemma FourAmong(t: string, u: char, l: char, d: char, x: char)
    requires u in t && l in t && d in t && x in t && u != l && u != d && u != x && l != d && l != x && d != x
    ensures multiset{u, l, d, x} <= multiset(t)
  {
    assert u in multiset(t) && l in multiset(t) && d in multiset(t) && x in multiset(t);
  }

  lemma FourInFront(t: string, rest: string, u: char, l: char, d: char, x: char)
    requires multiset{u, l, d, x} <= multiset(t) && multiset(rest) == multiset(t) - multiset{u, l, d, x}
    ensures Permutation([u, l, d, x] + rest, t) && |[u, l, d, x] + rest| == |t|
  {
    assert multiset([u, l, d, x]) == multiset{u, l, d, x};
    assert multiset([u, l, d, x] + rest) == multiset([u, l, d, x]) + multiset(rest);
    assert |[u, l, d, x] + rest| == |multiset([u, l, d, x] + rest)| && |t| == |multiset(t)|;
  }

  /** What is drawn at position i, if the first four are of the four classes, is in the charset of that position. */
  lemma IsDrawable(s: string, i: nat)
    requires i < |s| && |s| >= 4 && IsPasswordChar(s[i])
    requires IsUpper(s[0]) && IsLower(s[1]) && IsDigit(s[2]) && IsSpecial(s[3])
    ensures s[i] in CharsetAt(i)
  {
    hide UPPER, LOWER, DIGITS, SPECIAL, ALL_PASSWORD_CHARS;
    if i == 0 {
      UpperIsDrawn(s[i]);
    } else if i == 1 {
      LowerIsDrawn(s[i]);
    } else if i == 2 {
      DigitIsDrawn(s[i]);
    } else if i == 3 {
      SpecialIsDrawn(s[i]);
    } else {
      PasswordCharIsDrawn(s[i]);
    }
  }

  lemma CharsetsAreSmall(i: nat)
    ensures |CharsetAt(i)| <= 256 && |ALPHANUMERIC_LOWER| <= 256
  {
  }

  ghost predicate IsStrong(t: string) {
    && Has(t, IsUpper) && Has(t, IsLower) && Has(t, IsDigit) && Has(t, IsSpecial)
    && forall i | 0 <= i < |t| :: IsPasswordChar(t[i])
  }

  /** Every text of password characters with one of each class is the password of some bytes, up to 256 of them. */
  lemma EveryStrongPassword(t: string) returns (picks: seq<byte>, shuffle: seq<byte>)
    requires 4 <= |t| <= 256 && IsStrong(t)
    ensures |picks| == |shuffle| == |t| && StrongPassword(picks, shuffle) == t
  {
    hide Has, IsPasswordChar, Shuffled, CharsetAt;
    var s := ClassesFirst(t);
    forall i | 0 <= i < |s| ensures s[i] in CharsetAt(i) && |CharsetAt(i)| <= 256 {
      SameCharacters(s, t, i);
      IsDrawable(s, i);
      CharsetsAreSmall(i);
    }
    picks := BytesToDraw(CharsetAt, s);
    shuffle := BytesFor(s, t, |t| - 1);
  }

  lemma SameCharacters(s: string, t: string, i: nat)
    requires i < |s| && Permutation(s, t) && IsStrong(t)
    ensures IsPasswordChar(s[i])
  {
    hide Has, IsPasswordChar;
    assert s[i] in multiset(t);
    assert s[i] in t;
  }

  /** Every text of lower-case letters and digits is the random string of some bytes. */
  lemma EveryRandomString(t: string) returns (buf: seq<byte>)
    requires forall i | 0 <= i < |t| :: IsLower(t[i]) || IsDigit(t[i])
    ensures |buf| == |t| && RandomString(ALPHANUMERIC_LOWER, buf) == t
  {
    var charset := ALPHANUMERIC_LOWER;
    forall i | 0 <= i < |t| ensures t[i] in charset && |charset| <= 256 {
      LowerOrDigitIsDrawn(t[i]);
      CharsetsAreSmall(0);
    }
    hide LOWER, DIGITS, ALPHANUMERIC_LOWER, IsLower, IsDigit;
    buf := BytesToDraw(_ => charset, t);
  }

  lemma LowerOrDigitIsDrawn(c: char)
    requires IsLower(c) || IsDigit(c)
    ensures c in ALPHANUMERIC_LOWER
  {
    if IsLower(c) {
      LowerIsDrawn(c);
    } else {
      DigitIsDrawn(c);
    }
  }

  /** Every user name and strong password of the right lengths are the credentials of some stream. */
  lemma EveryCredentials(username: string, password: string) returns (stream: seq<byte>)
    requires 6 <= |username| <= 8 && forall i | 0 <= i < |username| :: IsLower(username[i]) || IsDigit(username[i])
    requires 12 <= |password| <= 17 && IsStrong(password)
    ensures |stream| >= 50 && Credentials(stream) == (username, password)
  {
    hide IsStrong, IsLower, IsDigit, InRange, StrongPassword, RandomString;
    var n, m := |username|, |password|;
    var lengths := InRangeReaches(6, 9, n);
    var lengths' := InRangeReaches(12, 18, m);
    var name := EveryRandomString(username);
    var picks, shuffle := EveryStrongPassword(password);
    stream := lengths + lengths' + name + picks + shuffle + seq(50, i => 0);
    assert stream[..4] == lengths && stream[4..8] == lengths' && stream[8..8 + n] == name;
    assert stream[8 + n..8 + n + m] == picks && stream[8 + n + m..8 + n + 2 * m] == shuffle;
  }

  // ------------------------------------------------------------------
  // What validation decides
  // ------------------------------------------------------------------

  predicate SameButForCase(s: string, w: string) {
    |s| == |w| && forall i | 0 <= i < |s| :: s[i] == w[i] || ('A' <= s[i] <= 'Z' && s[i] as int + 32 == w[i] as int)
  }

  lemma LowerCaseIs(s: string, w: string)
    requires forall i | 0 <= i < |w| :: !('A' <= w[i] <= 'Z')
    ensures ToLowercase(s) == w <==> SameButForCase(s, w)
  {
    if SameButForCase(s, w) {
      assert |ToLowercase(s)| == |w| && forall i | 0 <= i < |s| :: ToLowercase(s)[i] == w[i];
    }
    if ToLowercase(s) == w {
      forall i | 0 <= i < |s| ensures s[i] == w[i] || ('A' <= s[i] <= 'Z' && s[i] as int + 32 == w[i] as int) {
        assert ToLowercase(s)[i] == w[i];
      }
    }
  }

  predicate IsCommon(s: string) {
    || SameButForCase(s, "password") || SameButForCase(s, "12345678") || SameButForCase(s, "123456789")
    || SameButForCase(s, "qwertyui") || SameButForCase(s, "abcdefgh")
  }

  lemma CommonIsWeak(s: string)
    ensures ToLowercase(s) in WEAK_PASSWORDS <==> IsCommon(s)
  {
    LowerCaseIs(s, "password");
    LowerCaseIs(s, "12345678");
    LowerCaseIs(s, "123456789");
    LowerCaseIs(s, "qwertyui");
    LowerCaseIs(s, "abcdefgh");
  }

  /** The length counts bytes; the five common passwords are refused in any case. */
  lemma PasswordVerdict(s: string)
    ensures ValidatePassword(s) ==
            if Utf8Length(s) < 8 then Failure(TooShort) else if Utf8Length(s) > 128 then Failure(TooLong)
            else if IsCommon(s) then Failure(TooCommon) else Success(())
  {
    hide ToLowercase, IsCommon;
    CommonIsWeak(s);
  }

  predicate IsUsernameChar(c: char) {
    IsLower(c) || IsUpper(c) || IsDigit(c) || c == '-' || c == '_'
  }

  /** A user name is 3 to 32 letters, digits, hyphens and underscores, neither of these first or last. */
  lemma UsernameVerdict(s: string)
    ensures ValidateUsername(s).Success? <==>
            && 3 <= |s| <= 32 && (forall i | 0 <= i < |s| :: IsUsernameChar(s[i]))
            && s[0] != '-' && s[0] != '_' && s[|s| - 1] != '-' && s[|s| - 1] != '_'
    ensures ValidateUsername(s) == Failure(TooShort) <==> Utf8Length(s) < 3
    ensures ValidateUsername(s) == Failure(TooLong) <==> Utf8Length(s) > 32
    ensures ValidateUsername(s) == Failure(BadCharacter) <==>
            3 <= Utf8Length(s) <= 32 && exists c :: c in s && !IsUsernameChar(c)
  {
    if forall i | 0 <= i < |s| :: IsUsernameChar(s[i]) {
      AsciiLength(s);
      assert forall c | c in s :: IsUsernameChar(c);
    }
    if ValidateUsername(s).Success? {
      forall i | 0 <= i < |s| ensures IsUsernameChar(s[i]) {
        assert s[i] in s;
      }
    }
  }

  /** The bytes of a text are those of its parts, and each character takes as many as its code point needs. */
  lemma {:induction false} Utf8Parts(a: string, b: string)
    ensures Utf8Length(a + b) == Utf8Length(a) + Utf8Length(b)
  {
    if b == "" {
      assert a + b == a;
    } else {
      assert (a + b)[..|a + b| - 1] == a + b[..|b| - 1];
      Utf8Parts(a, b[..|b| - 1]);
    }
  }

  lemma Utf8OfOne(c: char)
    ensures c as int <= 0x7F ==> Utf8Length([c]) == 1
    ensures 0x80 <= c as int <= 0x7FF ==> Utf8Length([c]) == 2
    ensures 0x800 <= c as int <= 0xFFFF ==> Utf8Length([c]) == 3
    ensures 0x10000 <= c as int ==> Utf8Length([c]) == 4
  {
    assert [c][..0] == "";
  }
}
