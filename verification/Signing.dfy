/** Request bodies that are read in pieces, and the HMAC request signature. */
module Signing {
  import opened Common
  import Strings

  // ---------------------------------------------------------------- the body reader

  class ByteReader {
    const data: Bytes
    var offset: nat

    constructor (data: Bytes)
      ensures this.data == data && offset == 0 && Remaining() == data
    {
      this.data := data;
      offset := 0;
    }

    ghost function Remaining(): Bytes
      reads this
    {
      if offset <= |data| then data[offset..] else []
    }

    /** Copies the next bytes into `p`; `eof` once all bytes have been copied. */
    method Read(p: array<char>) returns (n: nat, eof: bool)
      modifies this`offset, p
      ensures eof <==> old(Remaining()) == []
      ensures n == if eof then 0 else Min(p.Length, |old(Remaining())|)
      ensures p[..n] == old(Remaining())[..n] && p[n..] == old(p[..])[n..]
      ensures Remaining() == old(Remaining())[n..]
    {
      if offset >= |data| { return 0, true; }
      eof := false;
      n := Min(p.Length, |data| - offset);
      forall i | 0 <= i < n { p[i] := data[offset + i]; }
      assert data[offset..][n..] == data[offset + n..];
      offset := offset + n;
    }
  }

  /** One read into a new buffer of `size` bytes. */
  method ReadPiece(reader: ByteReader, size: nat) returns (piece: Bytes, eof: bool)
    modifies reader`offset
    ensures old(reader.Remaining()) == piece + reader.Remaining()
    ensures eof <==> old(reader.Remaining()) == []
    ensures |piece| == Min(size, |old(reader.Remaining())|)
  {
    var buffer := new char[size](_ => '\0');
    var n: nat;
    n, eof := reader.Read(buffer);
    piece := buffer[..n];
  }

  lemma Reassociate(a: Bytes, b: Bytes, c: Bytes)
    ensures a + (b + c) == (a + b) + c
  {
  }

  /** io.ReadAll: reads pieces of whatever positive sizes until the end. */
  method ReadAll(reader: ByteReader, sizes: nat -> nat) returns (out: Bytes)
    requires forall i :: sizes(i) > 0
    modifies reader`offset
    ensures out == old(reader.Remaining())
    ensures reader.Remaining() == []
  {
    out := [];
    var round, eof := 0, false;
    ghost var whole, rest := reader.Remaining(), reader.Remaining();
    while !eof
      invariant rest == reader.Remaining() && whole == out + rest
      invariant eof ==> rest == []
      decreases |rest|, !eof
    {
      var piece;
      piece, eof := ReadPiece(reader, sizes(round));
      Reassociate(out, piece, reader.Remaining());
      out, rest := out + piece, reader.Remaining();
      round := round + 1;
    }
  }

  // ---------------------------------------------------------------- the signature

  /** SHA-256 and HMAC as arbitrary functions on byte strings. */
  datatype Crypto = Crypto(hash: Bytes -> Bytes, mac: (Bytes, Bytes) -> Bytes)

  function Digit(n: nat): char
    requires n < 16
  {
    if n < 10 then ('0' as int + n) as char else ('a' as int + n - 10) as char
  }

  /** hex.EncodeToString. */
  function Hex(bytes: Bytes): string {
    if bytes == [] then ""
    else
      var b := bytes[0] as int % 256;
      [Digit(b / 16), Digit(b % 16)] + Hex(bytes[1..])
  }

  /** strconv.FormatInt in base 10. */
  function Decimal(n: int): string
    decreases if n < 0 then 1 - n else n
  {
    if n < 0 then "-" + Decimal(-n)
    else if n < 10 then [Digit(n)]
    else Decimal(n / 10) + [Digit(n % 10)]
  }

  const HEX_DIGITS: string := "0123456789abcdef"

  /** Two lower-case digits for each byte, the high half first. */
  lemma {:induction false} HexDigits(bytes: Bytes, i: nat)
    requires IsByteString(bytes) && i < |bytes|
    ensures |Hex(bytes)| == 2 * |bytes|
    ensures var b := bytes[i] as int;
            Hex(bytes)[2 * i] == HEX_DIGITS[b / 16] && Hex(bytes)[2 * i + 1] == HEX_DIGITS[b % 16]
  {
    HexStep(bytes);
    DigitIs(bytes[0] as int / 16);
    DigitIs(bytes[0] as int % 16);
    assert |bytes| == 1 ==> Hex(bytes[1..]) == "";
    hide Hex, Digit;
    var rest := Hex(bytes[1..]);
    assert rest == Hex(bytes)[2..];
    if i > 0 {
      HexDigits(bytes[1..], i - 1);
      assert bytes[1..][i - 1] == bytes[i];
      assert rest[2 * i - 2] == Hex(bytes)[2 * i] && rest[2 * i - 1] == Hex(bytes)[2 * i + 1];
    } else if |bytes| > 1 {
      HexDigits(bytes[1..], 0);
    }
  }

  lemma DigitIs(n: nat)
    requires n < 16
    ensures Digit(n) == HEX_DIGITS[n]
  {
  }

  /** The number a string of decimal digits denotes. */
  function NumberOf(digits: string): int {
    if digits == "" then 0 else 10 * NumberOf(digits[..|digits| - 1]) + (digits[|digits| - 1] as int - '0' as int)
  }

  /** A natural number is written in decimal digits and denoted by them, a negative one with a sign. */
  lemma {:induction false} DecimalDenotes(n: int)
    ensures n < 0 ==> Decimal(n) == "-" + Decimal(-n)
    ensures n >= 0 ==> NumberOf(Decimal(n)) == n
    ensures n >= 0 ==> forall i :: 0 <= i < |Decimal(n)| ==> '0' <= Decimal(n)[i] <= '9'
    decreases if n < 0 then 0 else n
  {
    if n >= 0 { DecimalDigits(n); }
    if n >= 10 {
      DecimalDenotes(n / 10);
      assert Decimal(n)[..|Decimal(n)| - 1] == Decimal(n / 10);
    } else if n >= 0 {
      assert Decimal(n)[..0] == "";
    }
  }

  lemma {:induction false} HexHasNoNewline(bytes: Bytes)
    ensures '\n' !in Hex(bytes)
  {
    if bytes != [] { HexHasNoNewline(bytes[1..]); }
  }

  lemma {:induction false} DecimalHasNoNewline(n: int)
    ensures '\n' !in Decimal(n)
    decreases if n < 0 then 1 - n else n
  {
    if n < 0 { DecimalHasNoNewline(-n); }
    else if n >= 10 { DecimalHasNoNewline(n / 10); }
  }

  lemma {:induction false} DecimalDigits(n: nat)
    ensures Decimal(n) != "" && forall i :: 0 <= i < |Decimal(n)| ==> '0' <= Decimal(n)[i] <= '9'
  {
    if n >= 10 { DecimalDigits(n / 10); }
  }

  lemma {:induction false} DecimalInjectiveNat(m: nat, n: nat)
    requires Decimal(m) == Decimal(n)
    ensures m == n
  {
    if m >= 10 && n >= 10 {
      var a, b := Decimal(m / 10), Decimal(n / 10);
      assert a == Decimal(m)[..|Decimal(m)| - 1] && b == Decimal(n)[..|Decimal(n)| - 1];
      assert Decimal(m)[|a|] == Digit(m % 10) && Decimal(n)[|b|] == Digit(n % 10);
      DecimalInjectiveNat(m / 10, n / 10);
    } else {
      DecimalDigits(m / 10);
      DecimalDigits(n / 10);
    }
  }

  lemma DecimalInjective(m: int, n: int)
    requires Decimal(m) == Decimal(n)
    ensures m == n
  {
    if m < 0 && n < 0 {
      assert Decimal(m)[1..] == Decimal(-m) && Decimal(n)[1..] == Decimal(-n);
      DecimalInjectiveNat(-m, -n);
    } else if m >= 0 && n >= 0 {
      DecimalInjectiveNat(m, n);
    } else {
      assert Decimal(if m < 0 then m else n)[0] == '-';
      DecimalDigits(if m < 0 then n else m);
    }
  }

  predicate IsByteString(s: Bytes) {
    forall i :: 0 <= i < |s| ==> s[i] as int < 256
  }

  lemma DigitsDetermineByte(x: nat, y: nat)
    requires x < 256 && y < 256
    requires Digit(x / 16) == Digit(y / 16) && Digit(x % 16) == Digit(y % 16)
    ensures x == y
  {
    assert x / 16 == y / 16 && x % 16 == y % 16;
  }

  lemma HexStep(a: Bytes)
    requires a != [] && IsByteString(a)
    ensures |Hex(a)| >= 2 && Hex(a)[2..] == Hex(a[1..])
    ensures Hex(a)[0] == Digit(a[0] as int / 16) && Hex(a)[1] == Digit(a[0] as int % 16)
  {
    hide Digit;
    var b := a[0] as int;
    assert b % 256 == b;
    assert Hex(a) == [Digit(b / 16), Digit(b % 16)] + Hex(a[1..]);
  }

  lemma {:induction false} HexInjective(a: Bytes, b: Bytes)
    requires IsByteString(a) && IsByteString(b) && Hex(a) == Hex(b)
    ensures a == b
  {
    if a != [] { HexStep(a); }
    if b != [] { HexStep(b); }
    if a != [] && b != [] {
      DigitsDetermineByte(a[0] as int, b[0] as int);
      HexInjective(a[1..], b[1..]);
      assert a == [a[0]] + a[1..] && b == [b[0]] + b[1..];
    }
  }

  /** The string that is signed. */
  function Canonical(timestamp: int, nonce: Bytes, verb: string, path: string, bodyHash: Bytes): string {
    Decimal(timestamp) + "\n" + Hex(nonce) + "\n" + verb + "\n" + path + "\n" + Hex(bodyHash)
  }

  lemma CanonicalIsJoin(timestamp: int, nonce: Bytes, verb: string, path: string, bodyHash: Bytes)
    ensures Canonical(timestamp, nonce, verb, path, bodyHash) ==
            Strings.Join('\n', [Decimal(timestamp), Hex(nonce), verb, path, Hex(bodyHash)])
  {
    var f := [Decimal(timestamp), Hex(nonce), verb, path, Hex(bodyHash)];
    assert f[1..][1..] == f[2..] && f[2..][1..] == f[3..] && f[3..][1..] == f[4..];
    assert Strings.Join('\n', f[4..]) == f[4];
    assert Strings.Join('\n', f[3..]) == f[3] + "\n" + f[4];
    assert Strings.Join('\n', f[2..]) == f[2] + "\n" + (f[3] + "\n" + f[4]);
    assert Strings.Join('\n', f[1..]) == f[1] + "\n" + (f[2] + "\n" + (f[3] + "\n" + f[4]));
  }

  /** The signed string determines everything it is made of. The verb and the escaped path of
      the first request contain no newline; nothing is asked of the second. */
  lemma CanonicalInjective(t1: int, n1: Bytes, v1: string, p1: string, h1: Bytes,
                           t2: int, n2: Bytes, v2: string, p2: string, h2: Bytes)
    requires '\n' !in v1 && '\n' !in p1
    requires IsByteString(n1) && IsByteString(n2) && IsByteString(h1) && IsByteString(h2)
    requires Canonical(t1, n1, v1, p1, h1) == Canonical(t2, n2, v2, p2, h2)
    ensures t1 == t2 && n1 == n2 && v1 == v2 && p1 == p2 && h1 == h2
  {
    var a := [Decimal(t1), Hex(n1), v1, p1, Hex(h1)];
    var b := [Decimal(t2), Hex(n2), v2, p2, Hex(h2)];
    CanonicalIsJoin(t1, n1, v1, p1, h1);
    CanonicalIsJoin(t2, n2, v2, p2, h2);
    DecimalHasNoNewline(t1);
    HexHasNoNewline(n1);
    HexHasNoNewline(h1);
    Strings.JoinInjective('\n', a, b);
    assert a[0] == b[0] && a[1] == b[1] && a[2] == b[2] && a[3] == b[3] && a[4] == b[4];
    DecimalInjective(t1, t2);
    HexInjective(n1, n2);
    HexInjective(h1, h2);
  }

  // ---------------------------------------------------------------- signing a request

  datatype Header = TimestampHeader | NonceHeader | SignatureHeader | OtherHeader(name: string)

  class Request {
    const verb: string
    const path: string
    var body: ByteReader?
    var headers: map<Header, string>

    constructor (verb: string, path: string, body: ByteReader?)
      ensures this.verb == verb && this.path == path && this.body == body && headers == map[]
    {
      this.verb, this.path, this.body, headers := verb, path, body, map[];
    }

    /** The bytes a reader of the body would get; no body counts as empty. */
    ghost function Content(): Bytes
      reads this, body
    {
      if body == null then [] else body.Remaining()
    }
  }

  /** The headers carry the time, the nonce, and a signature over `content` made with `token`. */
  ghost predicate SignedAt(crypto: Crypto, token: Bytes, verb: string, path: string,
                           headers: map<Header, string>, content: Bytes, now: int, nonce: Bytes) {
    && TimestampHeader in headers && headers[TimestampHeader] == Decimal(now)
    && NonceHeader in headers && headers[NonceHeader] == Hex(nonce)
    && SignatureHeader in headers
    && headers[SignatureHeader] ==
         Hex(crypto.mac(token, Canonical(now, nonce, verb, path, crypto.hash(content))))
  }

  /** The other headers are the same. */
  ghost predicate SameOthers(a: map<Header, string>, b: map<Header, string>) {
    forall name ::
      && (OtherHeader(name) in a <==> OtherHeader(name) in b)
      && (OtherHeader(name) in a ==> a[OtherHeader(name)] == b[OtherHeader(name)])
  }

  /** Reads the whole body, puts a fresh reader over the same bytes back, and sets the three
      signature headers. `nonce` is None when no random bytes could be had; the body is
      restored even then. */
  method SignRequest(crypto: Crypto, request: Request, token: Bytes, now: int, nonce: Option<Bytes>, sizes: nat -> nat)
    returns (ok: bool)
    requires forall i :: sizes(i) > 0
    modifies request, request.body
    ensures request.body != null && fresh(request.body) && request.Content() == old(request.Content())
    ensures ok == nonce.Some?
    ensures !ok ==> request.headers == old(request.headers)
    ensures ok ==>
              && SignedAt(crypto, token, request.verb, request.path, request.headers, request.Content(), now,
                          nonce.value)
              && SameOthers(request.headers, old(request.headers))
  {
    if request.body == null { request.body := new ByteReader([]); }
    var body := ReadAll(request.body, sizes);
    request.body := new ByteReader(body);
    if nonce.None? { return false; }
    var canonical := Canonical(now, nonce.value, request.verb, request.path, crypto.hash(body));
    var signature := Hex(crypto.mac(token, canonical));
    request.headers := request.headers[TimestampHeader := Decimal(now)][NonceHeader := Hex(nonce.value)];
    request.headers := request.headers[SignatureHeader := signature];
    return true;
  }

  ghost predicate Injective<A(!new), B(!new)>(f: A -> B) {
    forall x, y :: f(x) == f(y) ==> x == y
  }

  /** If HMAC under the token and SHA-256 had no collisions, a signature would belong to one
      body, verb, path, timestamp and nonce. */
  lemma SignatureDeterminesRequest(crypto: Crypto, token: Bytes,
                                   t1: int, n1: Bytes, v1: string, p1: string, b1: Bytes,
                                   t2: int, n2: Bytes, v2: string, p2: string, b2: Bytes)
    requires '\n' !in v1 && '\n' !in p1 && IsByteString(n1) && IsByteString(n2)
    requires Injective(crypto.hash) && Injective((m: Bytes) => crypto.mac(token, m))
    requires forall x :: IsByteString(crypto.hash(x))
    requires forall x :: IsByteString(crypto.mac(token, x))
    requires Hex(crypto.mac(token, Canonical(t1, n1, v1, p1, crypto.hash(b1)))) ==
             Hex(crypto.mac(token, Canonical(t2, n2, v2, p2, crypto.hash(b2))))
    ensures b1 == b2 && v1 == v2 && p1 == p2 && t1 == t2 && n1 == n2
  {
    var c1, c2 := Canonical(t1, n1, v1, p1, crypto.hash(b1)), Canonical(t2, n2, v2, p2, crypto.hash(b2));
    var f := (m: Bytes) => crypto.mac(token, m);
    HexInjective(f(c1), f(c2));
    assert f(c1) == f(c2);
    CanonicalInjective(t1, n1, v1, p1, crypto.hash(b1), t2, n2, v2, p2, crypto.hash(b2));
  }
}
