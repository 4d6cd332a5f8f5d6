/** The "auth" field of a docker config entry: base64 (section 4 of RFC 4648) of `username:password`, on bytes. */
module DockerAuth {
  import opened Common

  type Byte = x: int | 0 <= x < 256
  type Sextet = x: int | 0 <= x < 64
  type Bytes = seq<Byte>

  const COLON: Byte := 58
  const PAD: Byte := 61
  const LF: Byte := 10
  const CR: Byte := 13

  /** The standard alphabet: A-Z, a-z, 0-9, +, /. */
  function Char(v: Sextet): Byte {
    if v < 26 then v + 65
    else if v < 52 then v - 26 + 97
    else if v < 62 then v - 52 + 48
    else if v == 62 then 43
    else 47
  }

  function Value(c: Byte): Option<Sextet> {
    if 65 <= c <= 90 then Some(c - 65)
    else if 97 <= c <= 122 then Some(c - 97 + 26)
    else if 48 <= c <= 57 then Some(c - 48 + 52)
    else if c == 43 then Some(62)
    else if c == 47 then Some(63)
    else None
  }

  predicate InAlphabet(c: Byte) { Value(c).Some? }

  // ---------- StdEncoding and RawStdEncoding ----------

  /**
   The four characters of three bytes; with fewer bytes the missing ones count as zero and the last characters are
   not used.
   */
  function Quantum(a: Byte, b: Byte, c: Byte): Bytes {
    [Char(a / 4), Char(a % 4 * 16 + b / 16), Char(b % 16 * 4 + c / 64), Char(c % 64)]
  }

  function Encode(b: Bytes, padded: bool): Bytes {
    if b == [] then []
    else if |b| == 1 then Quantum(b[0], 0, 0)[..2] + if padded then [PAD, PAD] else []
    else if |b| == 2 then Quantum(b[0], b[1], 0)[..3] + if padded then [PAD] else []
    else Quantum(b[0], b[1], b[2]) + Encode(b[3..], padded)
  }

  /** The bytes of a quantum's characters. */
  function Triple(v: Sextet, w: Sextet, x: Sextet, y: Sextet): Bytes {
    [v * 4 + w / 16, w % 16 * 16 + x / 4, x % 4 * 64 + y]
  }

  predicate AllIn(s: Bytes, n: nat) { n <= |s| && forall i :: 0 <= i < n ==> InAlphabet(s[i]) }

  function At(s: Bytes, i: nat): Sextet
    requires i < |s| && InAlphabet(s[i])
  {
    Value(s[i]).value
  }

  /** Decoding after line breaks have been taken out; as in Go, leftover bits of the last quantum are ignored. */
  function DecodeQuanta(s: Bytes, padded: bool): Option<Bytes> {
    if s == [] then Some([])
    else if AllIn(s, 4) then
      var rest := DecodeQuanta(s[4..], padded);
      if rest.None? then None else Some(Triple(At(s, 0), At(s, 1), At(s, 2), At(s, 3)) + rest.value)
    else if AllIn(s, 3) && s[3..] == (if padded then [PAD] else []) then
      Some(Triple(At(s, 0), At(s, 1), At(s, 2), 0)[..2])
    else if AllIn(s, 2) && s[2..] == (if padded then [PAD, PAD] else []) then
      Some(Triple(At(s, 0), At(s, 1), 0, 0)[..1])
    else None
  }

  function WithoutBreaks(s: Bytes): Bytes {
    if s == [] then []
    else (if s[0] == LF || s[0] == CR then [] else [s[0]]) + WithoutBreaks(s[1..])
  }

  function Decode(s: Bytes, padded: bool): Option<Bytes> { DecodeQuanta(WithoutBreaks(s), padded) }

  // ---------- the auth field ----------

  /** ASCII white space; TrimSpace matters only for finding a trailing '='. */
  predicate IsSpace(c: Byte) { c == 32 || 9 <= c <= 13 }

  function TrimRight(s: Bytes): Bytes {
    if s != [] && IsSpace(s[|s| - 1]) then TrimRight(s[..|s| - 1]) else s
  }

  predicate LooksPadded(field: Bytes) {
    TrimRight(field) != [] && TrimRight(field)[|TrimRight(field)| - 1] == PAD
  }

  datatype Credentials = Credentials(username: Bytes, password: Bytes)

  /** `strings.SplitN(s, ":", 2)`, when that gives two parts. */
  function SplitAtColon(s: Bytes): Option<Credentials> {
    if s == [] then None
    else if s[0] == COLON then Some(Credentials([], s[1..]))
    else
      var rest := SplitAtColon(s[1..]);
      if rest.None? then None else Some(Credentials([s[0]] + rest.value.username, rest.value.password))
  }

  function DecodeAuth(field: Bytes): Option<Credentials> {
    var decoded := Decode(field, LooksPadded(field));
    if decoded.None? then None else SplitAtColon(decoded.value)
  }

  function EncodeAuth(c: Credentials): Bytes { Encode(c.username + [COLON] + c.password, true) }

  /** The same field as other tools may write it, without padding. */
  function EncodeAuthUnpadded(c: Credentials): Bytes { Encode(c.username + [COLON] + c.password, false) }

  // ---------- round trips ----------

  lemma CharValue(v: Sextet)
    ensures Value(Char(v)) == Some(v)
  {}

  lemma SextetsJoin(a: Byte, b: Byte, c: Byte)
    ensures Triple(a / 4, a % 4 * 16 + b / 16, b % 16 * 4 + c / 64, c % 64) == [a, b, c]
  {}

  lemma QuantumTriple(a: Byte, b: Byte, c: Byte)
    ensures var q := Quantum(a, b, c); AllIn(q, 4) && Triple(At(q, 0), At(q, 1), At(q, 2), At(q, 3)) == [a, b, c]
  {
    CharValue(a / 4);
    CharValue(a % 4 * 16 + b / 16);
    CharValue(b % 16 * 4 + c / 64);
    CharValue(c % 64);
    SextetsJoin(a, b, c);
  }

  /** Decoding undoes encoding, with or without padding. */
  lemma {:induction false} DecodeEncode(b: Bytes, padded: bool)
    ensures DecodeQuanta(Encode(b, padded), padded) == Some(b)
  {
    if b != [] {
      var s := Encode(b, padded);
      var q := Quantum(b[0], if |b| > 1 then b[1] else 0, if |b| > 2 then b[2] else 0);
      QuantumTriple(b[0], if |b| > 1 then b[1] else 0, if |b| > 2 then b[2] else 0);
      if |b| >= 3 {
        DecodeEncode(b[3..], padded);
        assert s[..4] == q && s[4..] == Encode(b[3..], padded);
        assert forall i :: 0 <= i < 4 ==> s[i] == q[i];
        assert b == [b[0], b[1], b[2]] + b[3..];
      } else if |b| == 2 {
        assert s[..3] == q[..3] && s[3..] == (if padded then [PAD] else []);
        assert forall i :: 0 <= i < 3 ==> s[i] == q[i];
        assert padded ==> s[3] == s[3..][0] && !InAlphabet(s[3]);
        assert !AllIn(s, 4) && AllIn(s, 3);
        LastSextet(b[0], b[1], 0);
        assert Triple(At(s, 0), At(s, 1), At(s, 2), 0)[..2] == b;
      } else {
        assert s[..2] == q[..2] && s[2..] == (if padded then [PAD, PAD] else []);
        assert forall i :: 0 <= i < 2 ==> s[i] == q[i];
        assert padded ==> s[2] == s[2..][0] && !InAlphabet(s[2]);
        assert !AllIn(s, 3) && AllIn(s, 2);
        LastSextet(b[0], 0, 0);
        assert Triple(At(s, 0), At(s, 1), 0, 0)[..1] == b;
      }
    }
  }

  /** The characters left out of a short quantum do not reach the bytes that are kept. */
  lemma LastSextet(a: Byte, b: Byte, c: Byte)
    ensures var q := Quantum(a, b, c);
      && AllIn(q, 4)
      && Triple(At(q, 0), At(q, 1), At(q, 2), 0)[..2] == [a, b]
      && Triple(At(q, 0), At(q, 1), 0, 0)[..1] == [a]
  {
    QuantumTriple(a, b, c);
    CharValue(a / 4);
    CharValue(a % 4 * 16 + b / 16);
    CharValue(b % 16 * 4 + c / 64);
  }

  predicate Ends(s: Bytes, c: Byte) { s != [] && s[|s| - 1] == c }

  lemma QuantumChars(a: Byte, b: Byte, c: Byte)
    ensures forall i :: 0 <= i < 4 ==> InAlphabet(Quantum(a, b, c)[i]) && Quantum(a, b, c)[i] != PAD
  {}

  /** The characters of the first three bytes, or of fewer at the end, and what comes after them. */
  lemma EncodeParts(b: Bytes, padded: bool) returns (head: Bytes, tail: Bytes)
    requires b != []
    ensures Encode(b, padded) == head + tail
    ensures |head| == (if |b| == 1 then 2 else if |b| == 2 then 3 else 4)
    ensures forall i :: 0 <= i < |head| ==> InAlphabet(head[i])
    ensures tail == (if |b| >= 3 then Encode(b[3..], padded) else if !padded then []
                     else if |b| == 2 then [PAD] else [PAD, PAD])
  {
    var q := Quantum(b[0], if |b| > 1 then b[1] else 0, if |b| > 2 then b[2] else 0);
    QuantumChars(b[0], if |b| > 1 then b[1] else 0, if |b| > 2 then b[2] else 0);
    head := if |b| == 1 then q[..2] else if |b| == 2 then q[..3] else q;
    tail := if |b| >= 3 then Encode(b[3..], padded) else if !padded then []
            else if |b| == 2 then [PAD] else [PAD, PAD];
  }

  /** An encoding has no white space. */
  lemma {:induction false} EncodeChars(b: Bytes, padded: bool)
    ensures forall i :: 0 <= i < |Encode(b, padded)| ==> InAlphabet(Encode(b, padded)[i]) || Encode(b, padded)[i] == PAD
  {
    if b != [] {
      var head, tail := EncodeParts(b, padded);
      if |b| >= 3 {
        EncodeChars(b[3..], padded);
      }
    }
  }

  lemma EndsConcat(x: Bytes, y: Bytes, c: Byte)
    ensures Ends(x + y, c) <==> if y == [] then Ends(x, c) else Ends(y, c)
  {}

  lemma PartsEnd(b: Bytes, padded: bool)
    requires b != []
    ensures Encode(b, padded) != []
    ensures Ends(Encode(b, padded), PAD) <==> if |b| >= 3 then Ends(Encode(b[3..], padded), PAD) else padded
  {
    var head, tail := EncodeParts(b, padded);
    EndsConcat(head, tail, PAD);
    assert !Ends(head, PAD);
  }

  /** It ends with '=' exactly when padding was due and asked for. */
  lemma {:induction false} EncodeEnds(b: Bytes, padded: bool)
    ensures b != [] ==> Encode(b, padded) != []
    ensures Ends(Encode(b, padded), PAD) <==> padded && |b| % 3 != 0
  {
    if b != [] {
      PartsEnd(b, padded);
      if |b| >= 3 {
        EncodeEnds(b[3..], padded);
        assert |b| % 3 == (|b| - 3) % 3;
      }
    }
  }

  lemma {:induction false} NoBreaks(s: Bytes)
    requires forall i :: 0 <= i < |s| ==> s[i] != LF && s[i] != CR
    ensures WithoutBreaks(s) == s
  {
    if s != [] {
      NoBreaks(s[1..]);
    }
  }

  lemma {:induction false} PaddingDue(b: Bytes)
    requires |b| % 3 == 0
    ensures Encode(b, true) == Encode(b, false)
  {
    if b != [] {
      PaddingDue(b[3..]);
    }
  }

  /** Whichever form was written, the decoder chosen by the last character is the right one. */
  lemma DecodeEitherForm(b: Bytes, padded: bool)
    requires b != []
    ensures var field := Encode(b, padded); Decode(field, LooksPadded(field)) == Some(b)
  {
    var field := Encode(b, padded);
    EncodeChars(b, padded);
    EncodeEnds(b, padded);
    NoBreaks(field);
    assert TrimRight(field) == field;
    DecodeEncode(b, padded);
    if padded && |b| % 3 == 0 {
      PaddingDue(b);
      DecodeEncode(b, false);
    }
  }

  lemma {:induction false} SplitFirstColon(u: Bytes, p: Bytes)
    ensures var r := SplitAtColon(u + [COLON] + p);
      r.Some? && COLON !in r.value.username && (COLON !in u ==> r.value == Credentials(u, p))
  {
    var s := u + [COLON] + p;
    if u == [] {
      assert s[0] == COLON && s[1..] == p;
    } else {
      SplitFirstColon(u[1..], p);
      assert s[1..] == u[1..] + [COLON] + p;
      assert u == [u[0]] + u[1..];
    }
  }

  /** A string without a colon is refused; any other is split at its first, and nothing of it is lost. */
  lemma {:induction false} SplitIff(s: Bytes)
    ensures SplitAtColon(s).None? <==> COLON !in s
    ensures SplitAtColon(s).Some? ==>
              var c := SplitAtColon(s).value;
              COLON !in c.username && c.username + [COLON] + c.password == s
  {
    if s != [] {
      SplitIff(s[1..]);
      assert s == [s[0]] + s[1..];
    }
  }

  /** Decoding an encoded field, padded or not, gives back the credentials exactly when the username has no colon. */
  lemma AuthRoundTripIff(c: Credentials)
    ensures DecodeAuth(EncodeAuth(c)) == Some(c) <==> COLON !in c.username
    ensures DecodeAuth(EncodeAuthUnpadded(c)) == Some(c) <==> COLON !in c.username
  {
    var b := c.username + [COLON] + c.password;
    DecodeEitherForm(b, true);
    DecodeEitherForm(b, false);
    SplitFirstColon(c.username, c.password);
  }

  // ---------- the format itself, as RFC 4648 has it ----------

  /** The alphabet: upper case, lower case and digits in their order, then '+' and '/'. */
  lemma StandardAlphabet(v: Sextet)
    ensures Char(0) == 'A' as int && Char(26) == 'a' as int && Char(52) == '0' as int
    ensures Char(62) == '+' as int && Char(63) == '/' as int && PAD == '=' as int && COLON == ':' as int
    ensures v < 61 && v != 25 && v != 51 ==> Char(v + 1) == Char(v) + 1
  {}

  lemma ValueChar(c: Byte)
    requires InAlphabet(c)
    ensures Char(Value(c).value) == c
  {}

  function ByteAt(b: Bytes, i: nat): Byte { if i < |b| then b[i] else 0 }

  function SextetAt(s: Bytes, i: nat): Sextet { if i < |s| && InAlphabet(s[i]) then Value(s[i]).value else 0 }

  /** Three bytes as one number of 24 bits, most significant first and zero after the end. */
  function BytesWord(b: Bytes, i: nat): int {
    ByteAt(b, 3 * i) * 0x1_0000 + ByteAt(b, 3 * i + 1) * 0x100 + ByteAt(b, 3 * i + 2)
  }

  /** Four characters as one number of 24 bits; those that are missing, and '=', count as zero. */
  function CharsWord(s: Bytes, i: nat): int {
    SextetAt(s, 4 * i) * 0x4_0000 + SextetAt(s, 4 * i + 1) * 0x1000
    + SextetAt(s, 4 * i + 2) * 0x40 + SextetAt(s, 4 * i + 3)
  }

  /** As many characters as it takes to hold the bits: four for three bytes, and one more than the bytes left over. */
  function Characters(n: nat): nat { n / 3 * 4 + if n % 3 == 0 then 0 else n % 3 + 1 }

  lemma SextetsOfQuantum(a: Byte, b: Byte, c: Byte)
    ensures var q := Quantum(a, b, c);
      && SextetAt(q, 0) == a / 4 && SextetAt(q, 1) == a % 4 * 16 + b / 16
      && SextetAt(q, 2) == b % 16 * 4 + c / 64 && SextetAt(q, 3) == c % 64
  {
    CharValue(a / 4);
    CharValue(a % 4 * 16 + b / 16);
    CharValue(b % 16 * 4 + c / 64);
    CharValue(c % 64);
  }

  lemma SextetsJoinWord(a: Byte, b: Byte, c: Byte)
    ensures a / 4 * 0x4_0000 + (a % 4 * 16 + b / 16) * 0x1000 + (b % 16 * 4 + c / 64) * 0x40 + c % 64 ==
            a * 0x1_0000 + b * 0x100 + c
  {}

  /** `s` starts with the characters of the three bytes, or has none or '=' for those that stand for zero. */
  lemma FirstWord(s: Bytes, a: Byte, b: Byte, c: Byte)
    requires SextetAt(s, 0) == SextetAt(Quantum(a, b, c), 0) && SextetAt(s, 1) == SextetAt(Quantum(a, b, c), 1)
    requires SextetAt(s, 2) == SextetAt(Quantum(a, b, c), 2) && SextetAt(s, 3) == SextetAt(Quantum(a, b, c), 3)
    ensures CharsWord(s, 0) == a * 0x1_0000 + b * 0x100 + c
  {
    SextetsOfQuantum(a, b, c);
    SextetsJoinWord(a, b, c);
  }

  lemma WordsOfRest(q: Bytes, s: Bytes, b: Bytes, i: nat)
    requires |q| == 4 && |b| >= 3 && i > 0
    ensures CharsWord(q + s, i) == CharsWord(s, i - 1) && BytesWord(b, i) == BytesWord(b[3..], i - 1)
  {
    assert forall k: nat :: k >= 4 ==> SextetAt(q + s, k) == SextetAt(s, k - 4);
    assert forall k: nat :: k >= 3 ==> ByteAt(b, k) == ByteAt(b[3..], k - 3);
  }

  lemma ShortSextets(q: Bytes, n: nat, pads: Bytes, i: nat)
    requires n <= |q| && forall k :: 0 <= k < |pads| ==> pads[k] == PAD
    ensures SextetAt(q[..n] + pads, i) == if i < n then SextetAt(q, i) else 0
  {
    assert !InAlphabet(PAD);
    if n <= i < n + |pads| {
      assert (q[..n] + pads)[i] == pads[i - n];
    }
  }

  lemma FirstSextets(b: Bytes, padded: bool, i: nat)
    requires b != [] && i < 4
    ensures SextetAt(Encode(b, padded), i) == SextetAt(Quantum(ByteAt(b, 0), ByteAt(b, 1), ByteAt(b, 2)), i)
  {
    var q := Quantum(ByteAt(b, 0), ByteAt(b, 1), ByteAt(b, 2));
    if |b| == 1 {
      SextetsOfQuantum(ByteAt(b, 0), 0, 0);
      ShortSextets(q, 2, if padded then [PAD, PAD] else [], i);
    } else if |b| == 2 {
      SextetsOfQuantum(ByteAt(b, 0), ByteAt(b, 1), 0);
      ShortSextets(q, 3, if padded then [PAD] else [], i);
    } else {
      assert Encode(b, padded)[i] == q[i];
    }
  }

  lemma EncodeFirstWord(b: Bytes, padded: bool)
    requires b != []
    ensures CharsWord(Encode(b, padded), 0) == BytesWord(b, 0)
  {
    FirstSextets(b, padded, 0);
    FirstSextets(b, padded, 1);
    FirstSextets(b, padded, 2);
    FirstSextets(b, padded, 3);
    FirstWord(Encode(b, padded), ByteAt(b, 0), ByteAt(b, 1), ByteAt(b, 2));
  }

  lemma EncodeOtherWord(b: Bytes, padded: bool, i: nat)
    requires |b| >= 3 && i > 0
    ensures CharsWord(Encode(b, padded), i) == CharsWord(Encode(b[3..], padded), i - 1)
    ensures BytesWord(b, i) == BytesWord(b[3..], i - 1)
  {
    var head, tail := EncodeParts(b, padded);
    WordsOfRest(head, tail, b, i);
  }

  /** An encoding holds the bits of the bytes, three bytes in four characters. */
  lemma {:induction false} EncodeKeepsBits(b: Bytes, padded: bool, i: nat)
    requires i < (|b| + 2) / 3
    ensures CharsWord(Encode(b, padded), i) == BytesWord(b, i)
    decreases |b|
  {
    if i == 0 {
      EncodeFirstWord(b, padded);
    } else {
      EncodeOtherWord(b, padded, i);
      EncodeKeepsBits(b[3..], padded, i - 1);
    }
  }

  lemma CharactersMore(n: nat)
    ensures Characters(n + 3) == Characters(n) + 4 && (n + 3 + 2) / 3 * 4 == (n + 2) / 3 * 4 + 4
    ensures Characters(0) == 0 && Characters(1) == 2 && Characters(2) == 3
  {
    assert (n + 3) / 3 == n / 3 + 1 && (n + 3) % 3 == n % 3;
    assert (n + 5) / 3 == (n + 2) / 3 + 1;
  }

  /** It has no character too many, and then the '=' that make the length a multiple of four. */
  lemma {:induction false} EncodeLength(b: Bytes, padded: bool, j: nat)
    ensures |Encode(b, padded)| == if padded then (|b| + 2) / 3 * 4 else Characters(|b|)
    ensures j < |Encode(b, padded)| ==>
              if j < Characters(|b|) then InAlphabet(Encode(b, padded)[j]) else Encode(b, padded)[j] == PAD
  {
    CharactersMore(if |b| >= 3 then |b| - 3 else 0);
    if b != [] {
      var head, tail := EncodeParts(b, padded);
      if |b| >= 3 {
        EncodeLength(b[3..], padded, if j >= 4 then j - 4 else 0);
      }
    }
  }

  // ---------- what is decoded is what was written ----------

  /** The place of the last character if no byte uses all its bits, and otherwise -1. */
  function Leftover(n: nat): int { if n % 3 == 0 then -1 else Characters(n) - 1 }

  /** `s` and `e` agree but for the character at `last`, which may be any of the alphabet. */
  ghost predicate Writes(s: Bytes, e: Bytes, last: int) {
    |s| == |e| && forall i :: 0 <= i < |s| ==> s[i] == e[i] || (i == last && InAlphabet(s[i]))
  }

  lemma LeftoverMore(n: nat)
    ensures Leftover(n + 3) == if Leftover(n) < 0 then -1 else Leftover(n) + 4
    ensures Leftover(0) == -1 && Leftover(1) == 1 && Leftover(2) == 2
  {
    assert (n + 3) % 3 == n % 3;
    CharactersMore(n);
  }

  lemma WritesMore(q: Bytes, s: Bytes, e: Bytes, last: int)
    requires Writes(s, e, last) && |q| == 4
    ensures Writes(q + s, q + e, if last < 0 then -1 else last + 4)
  {
    var x, y := q + s, q + e;
    forall i | 4 <= i < |x| ensures x[i] == s[i - 4] && y[i] == e[i - 4] {}
  }

  lemma SplitFirst(v: Sextet, w: Sextet)
    ensures (v * 4 + w / 16) / 4 == v && (v * 4 + w / 16) % 4 * 16 + w % 16 == w
  {}

  lemma SplitSecond(w: Sextet, x: Sextet)
    ensures (w % 16 * 16 + x / 4) / 16 == w % 16 && (w % 16 * 16 + x / 4) % 16 * 4 + x % 4 == x
  {}

  lemma SplitThird(x: Sextet, y: Sextet)
    ensures (x % 4 * 64 + y) / 64 == x % 4 && (x % 4 * 64 + y) % 64 == y
  {}

  lemma TripleQuantum(v: Sextet, w: Sextet, x: Sextet, y: Sextet)
    ensures var t := Triple(v, w, x, y); Quantum(t[0], t[1], t[2]) == [Char(v), Char(w), Char(x), Char(y)]
  {
    SplitFirst(v, w);
    SplitSecond(w, x);
    SplitThird(x, y);
  }

  /** With the last byte missing the first two characters are still those of the sextets, and with two the first is. */
  lemma ShortQuantum(v: Sextet, w: Sextet, x: Sextet)
    ensures var t := Triple(v, w, x, 0); Quantum(t[0], t[1], 0)[..2] == [Char(v), Char(w)]
    ensures Quantum(Triple(v, w, x, 0)[0], 0, 0)[0] == Char(v)
  {
    SplitFirst(v, w);
    SplitSecond(w, x);
  }

  lemma FourChars(s: Bytes)
    requires AllIn(s, 4)
    ensures [Char(At(s, 0)), Char(At(s, 1)), Char(At(s, 2)), Char(At(s, 3))] == s[..4]
  {
    ValueChar(s[0]);
    ValueChar(s[1]);
    ValueChar(s[2]);
    ValueChar(s[3]);
  }

  lemma DecodedQuantum(s: Bytes, padded: bool, rest: Bytes)
    requires AllIn(s, 4) && Writes(s[4..], Encode(rest, padded), Leftover(|rest|))
    ensures var b := Triple(At(s, 0), At(s, 1), At(s, 2), At(s, 3)) + rest;
      Writes(s, Encode(b, padded), Leftover(|b|))
  {
    var t := Triple(At(s, 0), At(s, 1), At(s, 2), At(s, 3));
    var b := t + rest;
    TripleQuantum(At(s, 0), At(s, 1), At(s, 2), At(s, 3));
    FourChars(s);
    assert b[3..] == rest && b[0] == t[0] && b[1] == t[1] && b[2] == t[2];
    assert Encode(b, padded) == s[..4] + Encode(rest, padded);
    LeftoverMore(|rest|);
    WritesMore(s[..4], s[4..], Encode(rest, padded), Leftover(|rest|));
    assert s == s[..4] + s[4..];
  }

  lemma DecodedTwo(s: Bytes, padded: bool)
    requires AllIn(s, 3) && s[3..] == (if padded then [PAD] else [])
    ensures var b := Triple(At(s, 0), At(s, 1), At(s, 2), 0)[..2]; Writes(s, Encode(b, padded), Leftover(|b|))
  {
    LeftoverMore(0);
    var b := Triple(At(s, 0), At(s, 1), At(s, 2), 0)[..2];
    var q := Quantum(b[0], b[1], 0);
    ShortQuantum(At(s, 0), At(s, 1), At(s, 2));
    assert q[..2][0] == q[0] && q[..2][1] == q[1];
    ValueChar(s[0]);
    ValueChar(s[1]);
    assert Encode(b, padded) == q[..3] + s[3..];
    assert s == s[..3] + s[3..];
  }

  lemma DecodedOne(s: Bytes, padded: bool)
    requires AllIn(s, 2) && s[2..] == (if padded then [PAD, PAD] else [])
    ensures var b := Triple(At(s, 0), At(s, 1), 0, 0)[..1]; Writes(s, Encode(b, padded), Leftover(|b|))
  {
    LeftoverMore(0);
    var b := Triple(At(s, 0), At(s, 1), 0, 0)[..1];
    ShortQuantum(At(s, 0), At(s, 1), 0);
    ValueChar(s[0]);
    assert Encode(b, padded) == Quantum(b[0], 0, 0)[..2] + s[2..];
    assert s == s[..2] + s[2..];
  }

  /** Whatever decodes, decodes to bytes whose encoding it is; everything else is refused. */
  lemma {:induction false} DecodedIsEncoding(s: Bytes, padded: bool)
    requires DecodeQuanta(s, padded).Some?
    ensures var b := DecodeQuanta(s, padded).value; Writes(s, Encode(b, padded), Leftover(|b|))
  {
    if s == [] {
    } else if AllIn(s, 4) {
      DecodedIsEncoding(s[4..], padded);
      DecodedQuantum(s, padded, DecodeQuanta(s[4..], padded).value);
    } else if AllIn(s, 3) && s[3..] == (if padded then [PAD] else []) {
      DecodedTwo(s, padded);
    } else {
      DecodedOne(s, padded);
    }
  }

  lemma {:induction false} BreaksConcat(s: Bytes, t: Bytes)
    ensures WithoutBreaks(s + t) == WithoutBreaks(s) + WithoutBreaks(t)
  {
    if s == [] {
      assert s + t == t;
    } else {
      assert (s + t)[1..] == s[1..] + t;
      BreaksConcat(s[1..], t);
    }
  }

  /** A line break more, anywhere in the field, does not change what it decodes to. */
  lemma BreaksAreIgnored(s: Bytes, t: Bytes, c: Byte, padded: bool)
    requires c == '\n' as int || c == '\r' as int
    ensures Decode(s + [c] + t, padded) == Decode(s + t, padded)
  {
    BreaksConcat(s + [c], t);
    BreaksConcat(s, [c]);
    BreaksConcat(s, t);
    assert [c][1..] == [];
    assert WithoutBreaks([c]) == [] + WithoutBreaks([]);
    assert WithoutBreaks(s) + [] == WithoutBreaks(s);
  }

  ghost predicate PaddedAt(field: Bytes, i: int) {
    && 0 <= i < |field| && field[i] == '=' as int
    && forall j :: i < j < |field| ==> field[j] == ' ' as int || '\t' as int <= field[j] <= '\r' as int
  }

  /** The padded decoder is taken exactly for a field whose last byte, white space left aside, is '='. */
  lemma {:induction false} LooksPaddedIff(field: Bytes)
    ensures LooksPadded(field) <==> exists i :: PaddedAt(field, i)
  {
    if field != [] {
      var n := |field| - 1;
      if IsSpace(field[n]) {
        LooksPaddedIff(field[..n]);
        forall i ensures PaddedAt(field, i) <==> PaddedAt(field[..n], i) {}
      } else {
        assert LooksPadded(field) <==> PaddedAt(field, n);
        forall i | PaddedAt(field, i) ensures i == n {}
      }
    }
  }
}
