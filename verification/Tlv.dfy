/** The deterministic JSON tree of src/tlv/TlvType.ts and the values it holds. */
module Tlv {
  import opened Bytes

  type Width = w: nat | w == 1 || w == 2 || w == 4 || w == 8 witness 1

  /** The strings of `TlvCodec.ElementTypes`; `NoName` is undefined, `PlainBuffer` is "Buffer",
      `Other` is any string the writer gives no meaning to. */
  datatype TypeName =
    | Int(w: Width) | UInt(w: Width) | Boolean | Float | Double
    | StringLen(w: Width) | BufferLen(w: Width)
    | Null | Struct | Array | List | EndOfCollection
    | NoName | PlainBuffer | Other

  /** A JavaScript value.  `Num` is a number with an integral value, `Dbl` any other number (its IEEE 754
      double, low byte first), `F32` a number read as a float (its IEEE 754 single).  A string is kept
      as its UTF-8 bytes. */
  datatype Value =
    | Undefined
    | Bool(b: bool)
    | Num(n: int)
    | Big(n: int)
    | Dbl(bits: bytes)
    | F32(bits: bytes)
    | Str(utf8: bytes)
    | Buf(data: bytes)
    | Children(items: seq<Element>)

  datatype Element = Element(profile: Option<int>, tag: Option<int>, typ: TypeName, value: Value)

  type Forest = seq<Element>

  predicate IsContainer(t: TypeName) {
    t.Struct? || t.Array? || t.List?
  }

  /** m * 2^k */
  function ShiftLeft(m: int, k: nat): int
    decreases k
  {
    if k == 0 then m else ShiftLeft(2 * m, k - 1)
  }

  /** m / 2^k, when that is an integer. */
  function ShiftRight(m: int, k: nat): Option<int>
    decreases k
  {
    if k == 0 then Some(m) else if m % 2 == 1 then None else ShiftRight(m / 2, k - 1)
  }

  /** The JavaScript number held by an IEEE 754 double: 2^52 plus the mantissa, scaled by the exponent less 1075. */
  function NumberOfDouble(b: bytes): Value
    requires |b| == 8
  {
    var n := FromLE(b);
    var exponent := (n / 0x10_0000_0000_0000) % 0x800;
    var mantissa := n % 0x10_0000_0000_0000;
    var significand := 0x10_0000_0000_0000 + mantissa;
    var m := if n >= 0x8000_0000_0000_0000 then -significand else significand;
    if exponent == 0x7FF then Dbl(b)
    else if exponent == 0 then if mantissa == 0 then Num(0) else Dbl(b)
    else if exponent >= 1075 then Num(ShiftLeft(m, exponent - 1075))
    else match ShiftRight(m, 1075 - exponent)
      case Some(q) => Num(q)
      case None => Dbl(b)
  }

  /** Is `b` the double of a number that is not an integer? */
  predicate NonIntegral(b: bytes) {
    |b| == 8 && NumberOfDouble(b) == Dbl(b)
  }

  predicate IsNaN64(b: bytes) {
    var n := FromLE(b);
    (n / 0x10_0000_0000_0000) % 0x800 == 0x7FF && n % 0x10_0000_0000_0000 != 0
  }

  predicate IsNaN32(b: bytes) {
    var n := FromLE(b);
    (n / 0x80_0000) % 0x100 == 0xFF && n % 0x80_0000 != 0
  }

  /** JavaScript truthiness. */
  predicate Truthy(v: Value) {
    match v
    case Undefined => false
    case Bool(b) => b
    case Num(n) => n != 0
    case Big(n) => n != 0
    case Dbl(b) => !IsNaN64(b)
    case F32(b) => FromLE(b) % 0x8000_0000 != 0 && !IsNaN32(b)
    case Str(s) => s != []
    case Buf(_) => true
    case Children(_) => true
  }

  // ----- strings

  /** How many bytes follow a UTF-8 lead byte; `None` for a byte that cannot lead. */
  function Continuations(lead: byte): Option<nat> {
    if lead < 0x80 then Some(0)
    else if 0xC2 <= lead < 0xE0 then Some(1)
    else if 0xE0 <= lead < 0xF0 then Some(2)
    else if 0xF0 <= lead < 0xF5 then Some(3)
    else None
  }

  predicate IsContinuation(b: byte) {
    0x80 <= b < 0xC0
  }

  /** Behind four lead bytes the second is of a narrower range: no overlong forms, no surrogates, nothing past
      U+10FFFF. */
  predicate SecondFits(lead: byte, b: byte) {
    && IsContinuation(b)
    && (lead == 0xE0 ==> b >= 0xA0) && (lead == 0xED ==> b < 0xA0)
    && (lead == 0xF0 ==> b >= 0x90) && (lead == 0xF4 ==> b < 0x90)
  }

  /** How much of a first sequence is there: one byte, and the continuation bytes that fit it. */
  function Fitting(b: bytes): (n: nat)
    requires b != []
    ensures 1 <= n <= |b| && n <= 4
  {
    var k := if Continuations(b[0]).Some? then Continuations(b[0]).value else 0;
    if k < 1 || |b| < 2 || !SecondFits(b[0], b[1]) then 1
    else if k < 2 || |b| < 3 || !IsContinuation(b[2]) then 2
    else if k < 3 || |b| < 4 || !IsContinuation(b[3]) then 3
    else 4
  }

  /** All of a first sequence is there. */
  predicate Complete(b: bytes)
    requires b != []
  {
    Continuations(b[0]) == Some(Fitting(b) - 1)
  }

  /** Well-formed UTF-8. */
  predicate Utf8(b: bytes) {
    b == [] || (Complete(b) && Utf8(b[Fitting(b)..]))
  }

  /** `string.length`: UTF-16 code units, two for each four-byte sequence. */
  function Utf16Length(b: bytes): nat
    requires Utf8(b)
  {
    if b == [] then 0 else (if Fitting(b) == 4 then 2 else 1) + Utf16Length(b[Fitting(b)..])
  }

  /** U+FFFD */
  const REPLACEMENT: bytes := [0xEF, 0xBF, 0xBD]

  /** `buffer.toString("utf-8")`: each maximal part that is no sequence, or not all of one, is replaced. */
  function Replaced(b: bytes): bytes {
    if b == [] then [] else (if Complete(b) then b[..Fitting(b)] else REPLACEMENT) + Replaced(b[Fitting(b)..])
  }

  /** A sequence stays one, whatever follows it. */
  lemma CompleteStays(a: bytes, b: bytes)
    requires a != [] && Complete(a) && Fitting(a) == |a|
    ensures Complete(a + b) && Fitting(a + b) == |a|
  {
    var all := a + b;
    assert all[0] == a[0];
    assert forall i :: 0 <= i < |a| ==> all[i] == a[i];
  }

  /** What is read as a string is well-formed. */
  lemma {:induction false} ReplacedIsUtf8(b: bytes)
    ensures Utf8(Replaced(b))
    decreases |b|
  {
    if b != [] {
      var n := Fitting(b);
      ReplacedIsUtf8(b[n..]);
      var first := if Complete(b) then b[..n] else REPLACEMENT;
      CompleteStays(first, Replaced(b[n..]));
      assert (first + Replaced(b[n..]))[|first|..] == Replaced(b[n..]);
    }
  }

  /** Exactly well-formed bytes are read as they are. */
  lemma {:induction false} ReplacedIffUtf8(b: bytes)
    ensures Replaced(b) == b <==> Utf8(b)
    decreases |b|
  {
    if Replaced(b) == b {
      ReplacedIsUtf8(b);
    }
    if b != [] && Utf8(b) {
      ReplacedIffUtf8(b[Fitting(b)..]);
      assert b == b[..Fitting(b)] + b[Fitting(b)..];
    }
  }

  predicate Ascii(b: bytes) {
    forall i :: 0 <= i < |b| ==> b[i] < 0x80
  }

  lemma AsciiTail(b: bytes, n: nat)
    requires n <= |b|
    ensures Ascii(b) <==> Ascii(b[..n]) && Ascii(b[n..])
  {
    assert forall i :: n <= i < |b| ==> b[i] == b[n..][i - n];
  }

  /** A string is as long as its encoding exactly when it is ASCII. */
  lemma {:induction false} LengthIsByteCountIffAscii(b: bytes)
    requires Utf8(b)
    ensures Utf16Length(b) <= |b|
    ensures Utf16Length(b) == |b| <==> Ascii(b)
    decreases |b|
  {
    if b != [] {
      var n := Fitting(b);
      LengthIsByteCountIffAscii(b[n..]);
      AsciiTail(b, n);
      assert Ascii(b[..n]) <==> n == 1;
    }
  }

  /** One byte of ASCII is a sequence. */
  lemma AsciiByte(c: byte, b: bytes)
    requires c < 0x80
    ensures Replaced([c] + b) == [c] + Replaced(b)
    ensures Utf8([c] + b) <==> Utf8(b)
    ensures Utf8(b) ==> Utf16Length([c] + b) == 1 + Utf16Length(b)
  {
    var all := [c] + b;
    assert all[0] == c && Fitting(all) == 1 && Complete(all);
    assert all[1..] == b && all[..1] == [c];
  }

  /** ASCII in front is kept. */
  lemma {:induction false} AsciiThen(a: bytes, b: bytes)
    requires Ascii(a)
    ensures Replaced(a + b) == a + Replaced(b)
    ensures Utf8(a + b) <==> Utf8(b)
    ensures Utf8(b) ==> Utf16Length(a + b) == |a| + Utf16Length(b)
    decreases |a|
  {
    hide Replaced;
    hide Utf8;
    hide Utf16Length;
    if a == [] {
      assert a + b == b;
    } else {
      AsciiThen(a[1..], b);
      AsciiByte(a[0], a[1..] + b);
      assert a + b == [a[0]] + (a[1..] + b);
    }
  }

  lemma AsciiIsUtf8(b: bytes)
    requires Ascii(b)
    ensures Utf8(b) && Replaced(b) == b
  {
    AsciiThen(b, []);
    assert b + [] == b && Replaced([]) == [];
  }

  /** Nothing was replaced in what is read as ASCII. */
  lemma {:induction false} ReplacedAscii(b: bytes)
    requires Ascii(Replaced(b))
    ensures Replaced(b) == b
    decreases |b|
  {
    if b != [] {
      var n, r := Fitting(b), Replaced(b);
      var first := if Complete(b) then b[..n] else REPLACEMENT;
      AsciiTail(r, |first|);
      assert r[..|first|] == first && r[|first|..] == Replaced(b[n..]);
      assert first[0] < 0x80;
      ReplacedAscii(b[n..]);
      assert b == b[..n] + b[n..];
    }
  }

  // ----- strings that are cut short

  /** One sequence and what follows it. */
  lemma FirstSequence(a: bytes, b: bytes)
    requires a != [] && Complete(a) && Fitting(a) == |a|
    ensures Replaced(a + b) == a + Replaced(b)
    ensures Utf8(a + b) <==> Utf8(b)
    ensures Utf8(b) ==> Utf16Length(a + b) == (if |a| == 4 then 2 else 1) + Utf16Length(b)
  {
    CompleteStays(a, b);
    assert (a + b)[|a|..] == b && (a + b)[..|a|] == a;
  }

  /** A part of one sequence is replaced once. */
  lemma CutSequence(b: bytes, n: nat)
    requires b != [] && Complete(b) && 0 < n < Fitting(b)
    ensures Replaced(b[..n]) == REPLACEMENT
  {
    var cut := b[..n];
    assert cut[0] == b[0] && Fitting(cut) == n && cut[n..] == [];
    assert Replaced(cut) == REPLACEMENT + Replaced([]);
  }

  /** The whole sequences in front of a cut; a sequence cut in two is replaced once. */
  lemma {:induction false} CutReplaced(b: bytes, n: nat) returns (k: nat)
    requires Utf8(b) && n <= |b|
    ensures k <= n && Utf8(b[..k]) && Utf8(b[k..])
    ensures Replaced(b[..n]) == b[..k] + if k == n then [] else REPLACEMENT
    ensures Utf16Length(b) == Utf16Length(b[..k]) + Utf16Length(b[k..])
    decreases |b|
  {
    hide Replaced;
    hide Utf8;
    hide Utf16Length;
    hide Complete;
    hide Fitting;
    NoBytes();
    k := 0;
    assert b[0..] == b && b[..0] == [];
    if n > 0 {
      FirstIsComplete(b);
      var f := Fitting(b);
      if n < f {
        CutSequence(b, n);
      } else {
        var first, later := b[..f], b[f..];
        var j := CutReplaced(later, n - f);
        k := f + j;
        CutBehind(first, later, later[..n - f], later[..j], later[j..], if j == n - f then [] else REPLACEMENT);
        CutPlaces(b, n, f, j);
      }
    }
  }

  /** A cut behind the first sequence. */
  lemma CutBehind(first: bytes, later: bytes, cut: bytes, kept: bytes, lost: bytes, tail: bytes)
    requires first != [] && Complete(first) && Fitting(first) == |first|
    requires Utf8(later) && Utf8(kept) && Utf8(lost) && Utf16Length(later) == Utf16Length(kept) + Utf16Length(lost)
    requires Replaced(cut) == kept + tail
    ensures Utf8(first + kept) && Replaced(first + cut) == first + kept + tail && Utf8(first + later)
    ensures Utf16Length(first + later) == Utf16Length(first + kept) + Utf16Length(lost)
  {
    hide Replaced;
    hide Utf8;
    hide Utf16Length;
    hide Complete;
    hide Fitting;
    FirstSequence(first, later);
    FirstSequence(first, cut);
    FirstSequence(first, kept);
    assert first + (kept + tail) == first + kept + tail;
  }

  lemma CutPlaces(b: bytes, n: nat, f: nat, j: nat)
    requires f <= n <= |b| && j <= n - f
    ensures b == b[..f] + b[f..] && b[..n] == b[..f] + b[f..][..n - f]
    ensures b[..f + j] == b[..f] + b[f..][..j] && b[f + j..] == b[f..][j..]
  {
  }

  lemma NoBytes()
    ensures Replaced([]) == [] && Utf8([]) && Utf16Length([]) == 0
  {
  }

  lemma FirstIsComplete(b: bytes)
    requires b != [] && Utf8(b)
    ensures Complete(b) && Complete(b[..Fitting(b)]) && Fitting(b[..Fitting(b)]) == Fitting(b)
    ensures Utf8(b[Fitting(b)..])
  {
    var first := b[..Fitting(b)];
    assert first[0] == b[0];
  }

  /** ASCII and then U+FFFD. */
  predicate OneReplacement(b: bytes) {
    |b| >= 3 && b[|b| - 3..] == REPLACEMENT && Ascii(b[..|b| - 3])
  }

  /** A string comes back from as many of its bytes as it has UTF-16 units exactly if it is ASCII, or ASCII and then
      U+FFFD: of that character's three bytes one is read, and replaced by it. */
  lemma CutComesBackIff(b: bytes)
    requires Utf8(b)
    ensures Utf16Length(b) <= |b|
    ensures Replaced(b[..Utf16Length(b)]) == b <==> Ascii(b) || OneReplacement(b)
  {
    LengthIsByteCountIffAscii(b);
    var n := Utf16Length(b);
    if Ascii(b) {
      AsciiIsUtf8(b);
      assert b[..n] == b;
    } else {
      if Replaced(b[..n]) == b {
        CutIsOneReplacement(b);
      }
      if OneReplacement(b) {
        OneReplacementComesBack(b);
      }
    }
  }

  lemma CutIsOneReplacement(b: bytes)
    requires Utf8(b) && Utf16Length(b) < |b| && Replaced(b[..Utf16Length(b)]) == b
    ensures OneReplacement(b)
  {
    var n := Utf16Length(b);
    var k := CutReplaced(b, n);
    assert b == b[..k] + REPLACEMENT;
    assert b[k..] == REPLACEMENT;
    OneCharacter();
    LengthIsByteCountIffAscii(b[..k]);
  }

  lemma OneCharacter()
    ensures Utf8(REPLACEMENT) && Utf16Length(REPLACEMENT) == 1
    ensures Replaced(REPLACEMENT[..1]) == REPLACEMENT
  {
    assert Fitting(REPLACEMENT) == 3 && REPLACEMENT[3..] == [];
    assert REPLACEMENT[..1][1..] == [];
  }

  lemma OneReplacementComesBack(b: bytes)
    requires Utf8(b) && OneReplacement(b)
    ensures Utf16Length(b) == |b| - 2 && Replaced(b[..|b| - 2]) == b
  {
    var w := b[..|b| - 3];
    assert b == w + REPLACEMENT && b[..|b| - 2] == w + REPLACEMENT[..1];
    OneCharacter();
    AsciiThen(w, REPLACEMENT[..1]);
    AsciiThen(w, REPLACEMENT);
  }
}
