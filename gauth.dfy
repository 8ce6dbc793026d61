/**
 * The TOTP helper of the server (class Auth of GoogleAuthenticator.php):
 * base32 secrets (section 6 of RFC 4648), HOTP codes by dynamic truncation
 * (section 5.3 of RFC 4226) and validation over a window of time steps
 * (section 5.2 of RFC 6238).
 *
 * HMAC-SHA1 is a parameter of the object; the clock reading
 * (generateTimestamp, the current time step) is passed to the operations
 * that would consult it.
 */
module GAuth {
  import opened Wrappers
  import opened PhpValues

  type Byte = b: int | 0 <= b < 256

  /** HMAC-SHA1 over (message, key): always 20 bytes. */
  type Sha1Hmac = f: (seq<Byte>, seq<Byte>) -> seq<Byte> | forall msg, key :: |f(msg, key)| == 20
    witness (msg: seq<Byte>, key: seq<Byte>) => seq(20, _ => 0)

  /** A call that returned a value or raised an exception. */
  datatype Outcome<T> = Returned(value: T) | Raised(message: string)

  /** An argument PHP may pass as an integer or as a string. */
  datatype Scalar = IntArg(i: int) | TextArg(s: string)

  /** is_numeric, and the number the argument stands for. */
  function ScalarNumber(v: Scalar): Option<int>
  {
    match v
    case IntArg(i) => Some(i)
    case TextArg(s) => if NumericValue(s).Some? then Some(NumericValue(s).value) else None
  }

  /* ---------------- the base32 alphabet ---------------- */

  /** Entry i of array_merge(range('A', 'Z'), range(2, 7)). */
  function AlphabetAt(i: int): char
  {
    if 0 <= i < 26 then ('A' as int + i) as char else if 26 <= i < 32 then ('2' as int + i - 26) as char else '7'
  }

  /** The table keys, in order. */
  function Alphabet(): (a: string)
    ensures |a| == 32 && forall i :: 0 <= i < 32 ==> a[i] == AlphabetAt(i)
  {
    seq(32, i => AlphabetAt(i))
  }

  /** array_combine(keys, values): the later of two equal keys wins. */
  function Combine(keys: string, values: seq<int>): (m: map<char, int>)
    requires |keys| == |values|
    ensures m.Keys == set c | c in keys
  {
    if keys == [] then map[]
    else Combine(keys[..|keys| - 1], values[..|keys| - 1])[keys[|keys| - 1] := values[|keys| - 1]]
  }

  /** The table buildLookup installs. */
  function LookupTable(): map<char, int>
  {
    Combine(Alphabet(), seq(32, i => i))
  }

  /** Each key of a duplicate-free key list maps to the value at its own position. */
  lemma {:induction false} CombineAt(keys: string, values: seq<int>, i: nat)
    requires |keys| == |values| && i < |keys|
    requires forall a, b :: 0 <= a < b < |keys| ==> keys[a] != keys[b]
    ensures Combine(keys, values)[keys[i]] == values[i]
  {
    if i < |keys| - 1 {
      CombineAt(keys[..|keys| - 1], values[..|keys| - 1], i);
    }
  }

  /** The table maps 'A'..'Z' to 0..25 and '2'..'7' to 26..31, the alphabet of section 6 of RFC 4648, and nothing else. */
  lemma LookupIsRfc4648()
    ensures forall c :: c in LookupTable() <==> ('A' <= c <= 'Z' || '2' <= c <= '7')
    ensures forall c :: 'A' <= c <= 'Z' ==> LookupTable()[c] == c as int - 'A' as int
    ensures forall c :: '2' <= c <= '7' ==> LookupTable()[c] == c as int - '2' as int + 26
  {
    var values := seq(32, i => i);
    forall c | 'A' <= c <= 'Z'
      ensures c in LookupTable() && LookupTable()[c] == c as int - 'A' as int
    {
      var i := c as int - 'A' as int;
      assert Alphabet()[i] == c;
      CombineAt(Alphabet(), values, i);
    }
    forall c | '2' <= c <= '7'
      ensures c in LookupTable() && LookupTable()[c] == c as int - '2' as int + 26
    {
      var i := c as int - '2' as int + 26;
      assert Alphabet()[i] == c;
      CombineAt(Alphabet(), values, i);
    }
  }

  /**
   * The check `preg_match('/^[A-Z2-7]+$/', s)`: one or more alphabet
   * characters; `$` also matches before one final newline.
   */
  predicate Accepted(s: string)
  {
    || (s != [] && forall i :: 0 <= i < |s| ==> s[i] in Alphabet())
    || (|s| >= 2 && s[|s| - 1] == '\n' && forall i :: 0 <= i < |s| - 1 ==> s[i] in Alphabet())
  }

  /** The 5-bit value a character adds: its table entry, 0 for a character outside the table (PHP's null). */
  function Digit(c: char): (d: nat)
    ensures d < 32
  {
    if c in LookupTable() then (LookupIsRfc4648(); LookupTable()[c]) else 0
  }

  /** The concatenated 5-bit values of s as one number, first character most significant. */
  function Bits(s: string): nat
  {
    if s == [] then 0 else Bits(s[..|s| - 1]) * 32 + Digit(s[|s| - 1])
  }

  function Pow2(n: nat): (p: nat)
    ensures p >= 1
  {
    if n == 0 then 1 else 2 * Pow2(n - 1)
  }

  /** Byte k of the decoded secret: bits 8k .. 8k+7 of the 5|s| concatenated bits. */
  function ByteOf(s: string, k: nat): Byte
    requires 8 * k + 8 <= 5 * |s|
  {
    (Bits(s) / Pow2(5 * |s| - 8 * k - 8)) % 256
  }

  /** The decoded secret: floor(5n/8) bytes, the leftover bits dropped. */
  function Base32Decoded(s: string): (b: seq<Byte>)
    ensures |b| == 5 * |s| / 8
  {
    seq(5 * |s| / 8, k requires 0 <= k < 5 * |s| / 8 => ByteOf(s, k))
  }

  /** What base32_decode answers for a possibly-null argument. */
  function Decoding(s: Option<string>): Outcome<seq<Byte>>
  {
    if s.Some? && Accepted(s.value) then Returned(Base32Decoded(s.value)) else Raised("Invalid base32 hash!")
  }

  /* ---------------- arithmetic facts for the decoding loop ---------------- */

  lemma MulStep(d: int, a: int, b: int)
    requires d > 0 && a < b
    ensures d * a + d <= d * b
  {
    var k := b - a - 1;
    assert d * b == d * a + d + d * k;
  }

  /** Division and remainder are determined by x == d*q + r with 0 <= r < d. */
  lemma DivUnique(x: int, d: int, q: int, r: int)
    requires d > 0 && 0 <= r < d && x == d * q + r
    ensures x / d == q && x % d == r
  {
    var q0, r0 := x / d, x % d;
    assert x == d * q0 + r0;
    if q0 < q {
      MulStep(d, q0, q);
      assert false;
    }
    if q < q0 {
      MulStep(d, q, q0);
      assert false;
    }
  }

  lemma Pow2Add5(m: nat)
    ensures Pow2(m + 5) == Pow2(m) * 32
  {
    assert Pow2(m + 5) == 2 * Pow2(m + 4);
    assert Pow2(m + 4) == 2 * Pow2(m + 3);
    assert Pow2(m + 3) == 2 * Pow2(m + 2);
    assert Pow2(m + 2) == 2 * Pow2(m + 1);
    assert Pow2(m + 1) == 2 * Pow2(m);
  }

  /** Shifting five more bits in leaves the bits above them where they were. */
  lemma ShiftIn(a: nat, d: nat, m: nat)
    requires d < 32
    ensures (a * 32 + d) / Pow2(m + 5) == a / Pow2(m)
  {
    var p := Pow2(m);
    Pow2Add5(m);
    var q, r := a / p, a % p;
    assert a == p * q + r;
    assert a * 32 + d == (p * 32) * q + (32 * r + d);
    assert 32 * r + d < p * 32 by {
      MulStep(32, r, p);
    }
    DivUnique(a * 32 + d, p * 32, q, 32 * r + d);
  }

  /** Adding a multiple of w does not change the remainder modulo w. */
  lemma ModAddMultiple(a: nat, k: nat, w: nat)
    requires w > 0
    ensures (w * k + a) % w == a % w
  {
    assert a == w * (a / w) + a % w;
    assert w * k + a == w * (k + a / w) + a % w;
    DivUnique(w * k + a, w, k + a / w, a % w);
  }

  /** Shifting into a 64-bit buffer is shifting into the unbounded number and then wrapping. */
  lemma WrapShift(x: nat, d: nat)
    ensures ((x % 0x1_0000_0000_0000_0000) * 32 + d) % 0x1_0000_0000_0000_0000 == (x * 32 + d) % 0x1_0000_0000_0000_0000
  {
    var w := 0x1_0000_0000_0000_0000;
    var q, r := x / w, x % w;
    assert x * 32 + d == w * (32 * q) + (r * 32 + d);
    ModAddMultiple(r * 32 + d, 32 * q, w);
  }

  /** A character adds five bits: a byte completes exactly when eight or more are pending. */
  lemma CompleteBytes(i: nat, n: nat)
    requires n == 5 * i / 8
    ensures 5 * i - 8 * n < 8
    ensures 5 * (i + 1) / 8 > n <==> 5 * i - 8 * n + 5 >= 8
    ensures 5 * (i + 1) / 8 <= n + 1
  {
  }

  /** One more character shifts the bits so far five places up and adds its own five. */
  lemma BitsAppend(t: string, c: char)
    ensures Bits(t + [c]) == Bits(t) * 32 + Digit(c)
  {
    assert (t + [c])[..|t|] == t;
  }

  /** One more character leaves every byte already complete as it was. */
  lemma ByteKept(t: string, c: char, k: nat)
    requires 8 * k + 8 <= 5 * |t|
    ensures ByteOf(t + [c], k) == ByteOf(t, k)
  {
    BitsAppend(t, c);
    ShiftIn(Bits(t), Digit(c), 5 * |t| - 8 * k - 8);
  }

  /** One more character keeps the bytes already complete. */
  lemma PrefixKept(t: string, c: char)
    ensures 5 * |t| / 8 <= 5 * (|t| + 1) / 8
    ensures Base32Decoded(t + [c])[..5 * |t| / 8] == Base32Decoded(t)
  {
    var before, after := Base32Decoded(t), Base32Decoded(t + [c]);
    forall k | 0 <= k < |before|
      ensures after[k] == before[k]
    {
      ByteKept(t, c, k);
    }
  }

  /** One more character keeps the bytes already complete and may complete one more. */
  lemma DecodeStep(t: string, c: char)
    ensures Base32Decoded(t + [c]) == Base32Decoded(t) + (if 5 * (|t| + 1) / 8 > 5 * |t| / 8 then [ByteOf(t + [c], 5 * |t| / 8)] else [])
  {
    var n := 5 * |t| / 8;
    var after := Base32Decoded(t + [c]);
    PrefixKept(t, c);
    CompleteBytes(|t|, n);
    if |after| == n {
      assert after == after[..n];
    } else {
      assert after == after[..n] + [after[n]];
    }
  }

  /** Bits above the extracted byte do not matter: (x mod p*256*c) / p mod 256 == x / p mod 256. */
  lemma ByteBelow(x: nat, p: nat, c: nat)
    requires p > 0 && c > 0
    ensures (x % (p * 256 * c)) / p % 256 == x / p % 256
  {
    var w := p * 256 * c;
    var q, r := x / w, x % w;
    assert x == w * q + r;
    var r1, r0 := r / p, r % p;
    assert r == p * r1 + r0;
    assert x == p * (256 * c * q + r1) + r0;
    DivUnique(x, p, 256 * c * q + r1, r0);
    assert x / p == 256 * (c * q) + r1;
    var h, l := r1 / 256, r1 % 256;
    assert r1 == 256 * h + l;
    assert x / p == 256 * (c * q + h) + l;
    DivUnique(x / p, 256, c * q + h, l);
    DivUnique(r1, 256, h, l);
  }

  /** Reading bits l .. l+7 of a number does not depend on the bits above bit 63. */
  lemma LowBits(x: nat, l: nat)
    requires l < 8
    ensures (x % 0x1_0000_0000_0000_0000) / Pow2(l) % 256 == x / Pow2(l) % 256
  {
    if l == 0 {
      assert Pow2(0) == 1;
      ByteBelow(x, 1, 0x100000000000000);
    } else if l == 1 {
      assert Pow2(1) == 2;
      ByteBelow(x, 2, 0x80000000000000);
    } else if l == 2 {
      assert Pow2(2) == 4;
      ByteBelow(x, 4, 0x40000000000000);
    } else if l == 3 {
      assert Pow2(3) == 8;
      ByteBelow(x, 8, 0x20000000000000);
    } else if l == 4 {
      assert Pow2(4) == 16;
      ByteBelow(x, 16, 0x10000000000000);
    } else if l == 5 {
      assert Pow2(5) == 32;
      ByteBelow(x, 32, 0x8000000000000);
    } else if l == 6 {
      assert Pow2(6) == 64;
      ByteBelow(x, 64, 0x4000000000000);
    } else {
      assert Pow2(7) == 128;
      ByteBelow(x, 128, 0x2000000000000);
    }
  }

  /* ---------------- HOTP ---------------- */

  /** The bytes of a text whose characters are all single bytes. */
  function TextBytes(s: string): (b: seq<Byte>)
    requires forall i :: 0 <= i < |s| ==> s[i] as int < 256
    ensures |b| == |s| && forall i :: 0 <= i < |s| ==> b[i] == s[i] as int
  {
    seq(|s|, i requires 0 <= i < |s| => s[i] as int)
  }

  /** An accepted secret is plain ASCII. */
  lemma AcceptedIsAscii(s: string)
    requires Accepted(s)
    ensures forall i :: 0 <= i < |s| ==> s[i] as int < 128
  {
    forall i | 0 <= i < |s|
      ensures s[i] as int < 128
    {
      if i < |s| - 1 || s[i] != '\n' {
        var j :| 0 <= j < 32 && Alphabet()[j] == s[i];
      }
    }
  }

  /** The four bytes of pack('N', t): t modulo 2^32, most significant byte first. */
  function Pack32(t: int): (b: seq<Byte>)
    ensures |b| == 4
  {
    var u := t % 0x1_0000_0000;
    [u / 0x100_0000, u / 0x1_0000 % 256, u / 0x100 % 256, u % 256]
  }

  /** The big-endian number four bytes spell. */
  function BigEndian(b: seq<Byte>): nat
    requires |b| == 4
  {
    b[0] as int * 0x100_0000 + b[1] as int * 0x1_0000 + b[2] as int * 0x100 + b[3] as int
  }

  /** The HMAC message pack('N*', 0) . pack('N*', t): the 8-byte moving factor of RFC 4226 for t modulo 2^32. */
  function Counter(t: int): (m: seq<Byte>)
    ensures |m| == 8 && m[..4] == [0, 0, 0, 0]
  {
    [0, 0, 0, 0] + Pack32(t)
  }

  /** Packing keeps exactly the low 32 bits of the time step. */
  lemma CounterRoundTrip(t: int)
    ensures BigEndian(Counter(t)[4..]) == t % 0x1_0000_0000
  {
    var u := t % 0x1_0000_0000;
    var b := Counter(t)[4..];
    assert b == Pack32(t);
    DivUnique(u, 0x100, u / 0x100, u % 0x100);
    DivUnique(u / 0x100, 0x100, u / 0x1_0000, u / 0x100 % 0x100);
    DivUnique(u / 0x1_0000, 0x100, u / 0x100_0000, u / 0x1_0000 % 0x100);
  }

  /**
   * truncateHash: the four bytes at the offset the low nibble of byte 19
   * names, the top bit masked off ((b0 & 0x7f) << 24 | b1 << 16 | b2 << 8 | b3,
   * the parts occupying disjoint bits), modulo 10^digits.
   */
  function TruncateHash(hash: seq<Byte>, digits: nat): (n: nat)
    requires |hash| == 20
    ensures n < Pow10(digits)
  {
    var offset := hash[19] % 16;
    ((hash[offset] as int % 0x80) * 0x100_0000 + hash[offset + 1] as int * 0x1_0000 + hash[offset + 2] as int * 0x100 + hash[offset + 3] as int) % Pow10(digits)
  }

  /** Dynamic truncation as section 5.3 of RFC 4226 defines it: the 31 low bits of the selected word, modulo 10^digits. */
  function Rfc4226Value(hash: seq<Byte>, digits: nat): nat
    requires |hash| == 20
  {
    var o := hash[19] % 16;
    (BigEndian(hash[o..o + 4]) % 0x8000_0000) % Pow10(digits)
  }

  /** The helper's truncation is the one of RFC 4226. */
  lemma TruncateIsRfc4226(hash: seq<Byte>, digits: nat)
    requires |hash| == 20
    ensures TruncateHash(hash, digits) == Rfc4226Value(hash, digits)
  {
    var o := hash[19] % 16;
    var w := hash[o..o + 4];
    var low := hash[o + 1] as int * 0x1_0000 + hash[o + 2] as int * 0x100 + hash[o + 3] as int;
    assert BigEndian(w) == hash[o] as int * 0x100_0000 + low;
    var q, r := hash[o] as int / 0x80, hash[o] as int % 0x80;
    assert BigEndian(w) == 0x8000_0000 * q + (r * 0x100_0000 + low);
    DivUnique(BigEndian(w), 0x8000_0000, q, r * 0x100_0000 + low);
  }

  /** Zeros in front of a digit string do not change its value. */
  lemma {:induction false} LeadingZeros(z: nat, s: string)
    requires AllDigits(s)
    ensures AllDigits(seq(z, _ => '0') + s)
    ensures DigitsValue(seq(z, _ => '0') + s) == DigitsValue(s)
  {
    var p := seq(z, _ => '0') + s;
    if s == [] {
      assert p == seq(z, _ => '0');
      if z > 0 {
        assert p[..z - 1] == seq(z - 1, _ => '0');
        LeadingZeros(z - 1, []);
        assert seq(z - 1, _ => '0') + [] == seq(z - 1, _ => '0');
      }
    } else {
      LeadingZeros(z, s[..|s| - 1]);
      assert p[..|p| - 1] == seq(z, _ => '0') + s[..|s| - 1];
    }
  }

  /** The zero-padded code: exactly `digits` characters when digits >= 1, and it reads back as the number. */
  lemma PaddedCode(n: nat, digits: nat)
    requires 1 <= digits && n < Pow10(digits)
    ensures var code := PadLeft(Decimal(n), digits, '0');
      |code| == digits && AllDigits(code) && DigitsValue(code) == n
  {
    DecimalLength(n, digits);
    var d := Decimal(n);
    var code := PadLeft(d, digits, '0');
    assert code == seq(digits - |d|, _ => '0') + d;
    LeadingZeros(digits - |d|, d);
  }

  /**
   * One pass of the shifting loop, after the characters t: the digit of c
   * enters the 64-bit buffer, and a byte is emitted once eight bits wait.
   */
  method DecodeChar(ghost t: string, c: char, lookup: map<char, int>, buffer: nat, length: nat, binary: seq<Byte>)
    returns (buffer': nat, length': nat, binary': seq<Byte>)
    requires lookup == LookupTable()
    requires binary == Base32Decoded(t) && length == 5 * |t| - 8 * |binary| && buffer == Bits(t) % 0x1_0000_0000_0000_0000
    ensures binary' == Base32Decoded(t + [c])
    ensures length' == 5 * (|t| + 1) - 8 * |binary'|
    ensures buffer' == Bits(t + [c]) % 0x1_0000_0000_0000_0000
  {
    DecodeStep(t, c);
    BitsAppend(t, c);
    CompleteBytes(|t|, |binary|);
    ghost var bits := Bits(t + [c]);
    WrapShift(Bits(t), Digit(c));
    // $lookup[$hash[$i]]: null, that is 0, for the newline the check lets through.
    var d := if c in lookup then lookup[c] else 0;
    assert d == Digit(c);
    // PHP's << on a 64-bit integer drops the bits shifted out; the digit lands in the five cleared bits.
    buffer' := (buffer * 32 + d) % 0x1_0000_0000_0000_0000;
    assert buffer' == bits % 0x1_0000_0000_0000_0000;
    length' := length + 5;
    binary' := binary;
    if length' >= 8 {
      length' := length' - 8;
      // ($buffer & (0xFF << $length)) >> $length: the eight bits above the `length` lowest.
      LowBits(bits, length');
      assert (buffer' / Pow2(length')) % 256 == ByteOf(t + [c], 5 * |t| / 8);
      binary' := binary' + [(buffer' / Pow2(length')) % 256];
    }
  }

  /** The shifting loop of base32_decode over a string the alphabet check accepted. */
  method DecodeAccepted(s: string, lookup: map<char, int>) returns (binary: seq<Byte>)
    requires lookup == LookupTable()
    ensures binary == Base32Decoded(s)
  {
    var buffer: nat := 0;
    var length: nat := 0;
    binary := [];
    for i := 0 to |s|
      invariant binary == Base32Decoded(s[..i])
      invariant length == 5 * i - 8 * |binary|
      invariant buffer == Bits(s[..i]) % 0x1_0000_0000_0000_0000
    {
      assert s[..i + 1] == s[..i] + [s[i]];
      buffer, length, binary := DecodeChar(s[..i], s[i], lookup, buffer, length, binary);
    }
    assert s[..|s|] == s;
  }

  /* ---------------- the helper object ---------------- */

  class Auth {
    var lookup: map<char, int>
    /** The base32 secret; None while none was set (PHP's null). */
    var initKey: Option<string>
    var refreshSeconds: int
    var codeLength: nat
    /** Time steps accepted before and after the current one. */
    var range: int
    const hmac: Sha1Hmac

    predicate Valid()
      reads this
    {
      && lookup == LookupTable()
      && codeLength <= 18
      && KeyOk(initKey)
    }

    /** __construct() without a key: the table built, 30-second steps, 6 digits, a window of 2. */
    constructor (hmac: Sha1Hmac)
      ensures Valid()
      ensures initKey == None && refreshSeconds == 30 && codeLength == 6 && range == 2 && this.hmac == hmac
    {
      this.hmac := hmac;
      lookup := LookupTable();
      initKey := None;
      refreshSeconds := 30;
      codeLength := 6;
      range := 2;
    }

    /** buildLookup: installs the alphabet table. */
    method BuildLookup()
      modifies this
      ensures lookup == LookupTable()
      ensures initKey == old(initKey) && codeLength == old(codeLength) && range == old(range) && refreshSeconds == old(refreshSeconds)
    {
      lookup := Combine(Alphabet(), seq(32, i => i));
    }

    /** setInitKey: keeps a key the alphabet check accepts, raises otherwise and keeps the old one. */
    method SetInitKey(key: string) returns (o: Outcome<()>)
      requires Valid()
      modifies this
      ensures Valid()
      ensures Accepted(key) ==> o == Returned(()) && initKey == Some(key)
      ensures !Accepted(key) ==> o == Raised("Invalid base32 hash!") && initKey == old(initKey)
      ensures codeLength == old(codeLength) && range == old(range) && refreshSeconds == old(refreshSeconds)
    {
      if !Accepted(key) {
        return Raised("Invalid base32 hash!");
      }
      initKey := Some(key);
      o := Returned(());
    }

    /** setRange: a numeric argument replaces the window, anything else raises and leaves it. */
    method SetRange(v: Scalar) returns (o: Outcome<()>)
      requires Valid()
      modifies this
      ensures Valid()
      ensures ScalarNumber(v).Some? ==> o == Returned(()) && range == ScalarNumber(v).value
      ensures ScalarNumber(v).None? ==> o == Raised("Invalid window range") && range == old(range)
      ensures initKey == old(initKey) && codeLength == old(codeLength) && refreshSeconds == old(refreshSeconds)
    {
      var n := ScalarNumber(v);
      if n.None? {
        return Raised("Invalid window range");
      }
      range := n.value;
      o := Returned(());
    }

    /** setRefresh: a numeric argument replaces the step length, anything else raises and leaves it. */
    method SetRefresh(v: Scalar) returns (o: Outcome<()>)
      requires Valid()
      modifies this
      ensures Valid()
      ensures ScalarNumber(v).Some? ==> o == Returned(()) && refreshSeconds == ScalarNumber(v).value
      ensures ScalarNumber(v).None? ==> o == Raised("Seconds must be numeric") && refreshSeconds == old(refreshSeconds)
      ensures initKey == old(initKey) && codeLength == old(codeLength) && range == old(range)
    {
      var n := ScalarNumber(v);
      if n.None? {
        return Raised("Seconds must be numeric");
      }
      refreshSeconds := n.value;
      o := Returned(());
    }

    /** setCodeLength: no check at all. */
    method SetCodeLength(length: nat)
      requires Valid() && length <= 18
      modifies this
      ensures Valid()
      ensures codeLength == length
      ensures initKey == old(initKey) && range == old(range) && refreshSeconds == old(refreshSeconds)
    {
      codeLength := length;
    }

    /**
     * base32_decode: rejects what the alphabet check refuses (before any
     * upper-casing, so lower case is refused), then shifts five bits per
     * character into a 64-bit buffer and emits a byte whenever eight bits
     * are pending.
     */
    method Base32Decode(hash: Option<string>) returns (o: Outcome<seq<Byte>>)
      requires Valid()
      ensures o == Decoding(hash)
    {
      if hash.None? || !Accepted(hash.value) {
        return Raised("Invalid base32 hash!");
      }
      var binary := DecodeAccepted(hash.value, lookup);
      o := Returned(binary);
    }

    /**
     * validateCode(code, key, timestamp, range): the code must have the
     * configured length; a zero range or time step falls back to the
     * object's window and to the current step; the key is decoded, and the
     * code is compared (PHP's loose ==) with the code of each step of the
     * window in turn.
     */
    method ValidateCode(code: string, key: Option<string>, timestamp: int, range: int, now: int) returns (o: Outcome<bool>)
      requires Valid()
      ensures o == Validation(hmac, initKey, codeLength, code, key, timestamp, if range == 0 then this.range else range, now)
    {
      if |code| != codeLength {
        return Raised("Incorrect code length");
      }
      var r := if range == 0 then this.range else range;
      var t := if timestamp == 0 then now else timestamp;
      var k := if key.None? || key.value == "" then initKey else key;
      var decoded := Base32Decode(k);
      if decoded.Raised? {
        return Raised(decoded.message);
      }
      var found := SearchWindow(decoded.value, code, t, r, now);
      o := Returned(found);
    }

    /** The loop of validateCode: the steps t - r .. t + r in increasing order, stopping at the first match. */
    method SearchWindow(key: seq<Byte>, code: string, t: int, r: int, now: int) returns (found: bool)
      requires Valid()
      ensures found == WindowMatch(hmac, initKey, codeLength, key, code, t, r, now)
    {
      var time := t - r;
      while time <= t + r
        invariant t - r <= time && (time <= t + r + 1 || time == t - r)
        invariant !MatchIn(hmac, initKey, codeLength, key, code, t - r, time, now)
        decreases t + r + 1 - time
      {
        MatchInExtend(hmac, initKey, codeLength, key, code, t - r, time, now);
        if LooseEq(OneTime(hmac, initKey, codeLength, key, time, now), code) {
          return true;
        }
        time := time + 1;
      }
      found := false;
    }
  }

  /* ---------------- codes and their validation ---------------- */

  /** A secret the object may hold: null or text the alphabet check accepted. */
  predicate KeyOk(initKey: Option<string>)
  {
    initKey.Some? ==> Accepted(initKey.value)
  }

  /** The object's secret as the bytes hash_hmac receives when no decoded key is given (null gives the empty key). */
  function InitKeyBytes(initKey: Option<string>): (b: seq<Byte>)
    requires KeyOk(initKey)
    ensures initKey.None? ==> b == []
    ensures initKey.Some? ==> |b| == |initKey.value| && forall i :: 0 <= i < |b| ==> b[i] == initKey.value[i] as int
  {
    if initKey.None? then [] else (AcceptedIsAscii(initKey.value); TextBytes(initKey.value))
  }

  /**
   * generateOneTime(key, timestamp) of an object holding initKey and
   * digits: the empty key falls back to the object's base32 text itself,
   * time step 0 to the current step, and the truncated HMAC-SHA1 of the
   * counter is left-padded with '0' to the code length.
   */
  function OneTime(hmac: Sha1Hmac, initKey: Option<string>, digits: nat, key: seq<Byte>, timestamp: int, now: int): (code: string)
    requires KeyOk(initKey)
    ensures AllDigits(code) && DigitsValue(code) < Pow10(digits)
    ensures 1 <= digits ==> |code| == digits
  {
    var k := if key == [] then InitKeyBytes(initKey) else key;
    var t := if timestamp == 0 then now else timestamp;
    var n := TruncateHash(hmac(Counter(t), k), digits);
    if 1 <= digits then
      PaddedCode(n, digits);
      PadLeft(Decimal(n), digits, '0')
    else
      assert Pow10(0) == 1;
      PadLeft(Decimal(n), digits, '0')
  }

  /** A one-time code is the HOTP value of RFC 4226 for the key and time step (RFC 6238), written in `digits` digits. */
  lemma OneTimeIsHotp(hmac: Sha1Hmac, initKey: Option<string>, digits: nat, key: seq<Byte>, t: int, now: int)
    requires KeyOk(initKey) && 1 <= digits && key != [] && t != 0
    ensures |OneTime(hmac, initKey, digits, key, t, now)| == digits
    ensures DigitsValue(OneTime(hmac, initKey, digits, key, t, now)) == Rfc4226Value(hmac(Counter(t), key), digits)
  {
    var h := hmac(Counter(t), key);
    TruncateIsRfc4226(h, digits);
    PaddedCode(TruncateHash(h, digits), digits);
  }

  /** Some time step in [lo, hi) yields a code loosely equal to `code`. */
  ghost predicate MatchIn(hmac: Sha1Hmac, initKey: Option<string>, digits: nat, key: seq<Byte>, code: string, lo: int, hi: int, now: int)
    requires KeyOk(initKey)
  {
    exists u :: lo <= u < hi && LooseEq(OneTime(hmac, initKey, digits, key, u, now), code)
  }

  /** Some time step of the window [t - r, t + r] yields a code loosely equal to `code`. */
  ghost predicate WindowMatch(hmac: Sha1Hmac, initKey: Option<string>, digits: nat, key: seq<Byte>, code: string, t: int, r: int, now: int)
    requires KeyOk(initKey)
  {
    MatchIn(hmac, initKey, digits, key, code, t - r, t + r + 1, now)
  }

  /** Widening the range by one step adds exactly that step's code. */
  lemma MatchInExtend(hmac: Sha1Hmac, initKey: Option<string>, digits: nat, key: seq<Byte>, code: string, lo: int, hi: int, now: int)
    requires KeyOk(initKey) && lo <= hi
    ensures MatchIn(hmac, initKey, digits, key, code, lo, hi + 1, now) <==>
      MatchIn(hmac, initKey, digits, key, code, lo, hi, now) || LooseEq(OneTime(hmac, initKey, digits, key, hi, now), code)
  {
    if MatchIn(hmac, initKey, digits, key, code, lo, hi + 1, now) && !LooseEq(OneTime(hmac, initKey, digits, key, hi, now), code) {
      var u :| lo <= u < hi + 1 && LooseEq(OneTime(hmac, initKey, digits, key, u, now), code);
      assert u < hi;
    }
  }

  /** The key validateCode decodes: a null or empty argument falls back to the object's secret. */
  function KeyArgument(initKey: Option<string>, key: Option<string>): (k: Option<string>)
    ensures key.Some? && key.value != "" ==> k == key
    ensures key.None? || key.value == "" ==> k == initKey
  {
    if key.None? || key.value == "" then initKey else key
  }

  /**
   * What validateCode(code, key, timestamp, range) answers on an object
   * holding initKey and digits, once the window r is settled: a length
   * error, a decoding error, or whether the window holds the code.
   */
  ghost function Validation(hmac: Sha1Hmac, initKey: Option<string>, digits: nat, code: string, key: Option<string>, timestamp: int, r: int, now: int): Outcome<bool>
    requires KeyOk(initKey)
  {
    if |code| != digits then Raised("Incorrect code length")
    else match Decoding(KeyArgument(initKey, key))
      case Raised(m) => Raised(m)
      case Returned(binary) => Returned(WindowMatch(hmac, initKey, digits, binary, code, if timestamp == 0 then now else timestamp, r, now))
  }

  /** Every code of the window is accepted. */
  lemma WindowAcceptsItsCodes(hmac: Sha1Hmac, initKey: Option<string>, digits: nat, key: seq<Byte>, t: int, r: int, u: int, now: int)
    requires KeyOk(initKey) && t - r <= u <= t + r
    ensures WindowMatch(hmac, initKey, digits, key, OneTime(hmac, initKey, digits, key, u, now), t, r, now)
  {
    var code := OneTime(hmac, initKey, digits, key, u, now);
    LooseEqReflexive(code);
    assert t - r <= u < t + r + 1 && LooseEq(code, code);
  }

  /** For a code of digits of the configured length, loose matching is exact matching: no other string of digits gets in. */
  lemma DigitCodeMatchesExactly(hmac: Sha1Hmac, initKey: Option<string>, digits: nat, key: seq<Byte>, code: string, t: int, r: int, now: int)
    requires KeyOk(initKey) && 1 <= digits && AllDigits(code) && |code| == digits
    ensures WindowMatch(hmac, initKey, digits, key, code, t, r, now) <==>
      exists u :: t - r <= u <= t + r && OneTime(hmac, initKey, digits, key, u, now) == code
  {
    if WindowMatch(hmac, initKey, digits, key, code, t, r, now) {
      var u :| t - r <= u < t + r + 1 && LooseEq(OneTime(hmac, initKey, digits, key, u, now), code);
      LooseEqOnDigits(OneTime(hmac, initKey, digits, key, u, now), code);
    }
    if exists u :: t - r <= u <= t + r && OneTime(hmac, initKey, digits, key, u, now) == code {
      var u :| t - r <= u <= t + r && OneTime(hmac, initKey, digits, key, u, now) == code;
      LooseEqReflexive(code);
      assert t - r <= u < t + r + 1 && LooseEq(OneTime(hmac, initKey, digits, key, u, now), code);
    }
  }
}
