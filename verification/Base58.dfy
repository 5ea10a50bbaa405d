/**
 Base58 and Base58Check text forms of byte strings.
 */
module Base58 {
  import opened Options
  import opened TvmTypes
  import opened Arith

  /** Digits and letters without the confusable 0, O, I and l. */
  const ALPHABET: string := "123456789" + "ABCDEFGH" + "JKLMN" + "PQRSTUVWXYZ" + "abcdefghijk" + "mnopqrstuvwxyz"
  const RADIX: nat := 58

  // ---- positional notation ----

  type Digits = seq<nat>

  predicate Fits(b: nat, ds: Digits) { forall i :: 0 <= i < |ds| ==> ds[i] < b }

  function Join(b: nat, high: nat, low: nat): nat { high * b + low }

  function High(b: nat, x: nat): (q: nat)
    requires b > 1
    ensures x > 0 ==> q < x
  {
    QuotientLess(x, b);
    x / b
  }

  function Low(b: nat, x: nat): (r: nat)
    requires b > 1
    ensures r < b
  {
    x % b
  }

  lemma QuotientLess(x: nat, b: nat)
    requires b > 1
    ensures 0 <= x / b && (x > 0 ==> x / b < x)
  {
    QuotientBracketed(x, b);
    if x > 0 && x / b >= x {
      MulMono(x, x / b, b);
      MulMono(2, b, x);
      assert false;
    }
  }

  lemma QuotientBracketed(x: nat, b: nat)
    requires b > 1
    ensures x == x / b * b + x % b && x / b >= 0
  {
    assert x == b * (x / b) + x % b;
    assert b * (x / b) == x / b * b;
  }

  lemma JoinSplit(b: nat, high: nat, low: nat)
    requires b > 1 && low < b
    ensures High(b, Join(b, high, low)) == high && Low(b, Join(b, high, low)) == low
    ensures high > 0 ==> Join(b, high, low) > 0
  {
    var x := Join(b, high, low);
    QuotientIs(x, b, high);
    QuotientBracketed(x, b);
    MulMono(0, high, b);
    if high > 0 {
      MulMono(1, high, b);
    }
  }

  lemma SplitJoin(b: nat, x: nat)
    requires b > 1
    ensures Join(b, High(b, x), Low(b, x)) == x
    ensures High(b, x) == 0 ==> Low(b, x) == x
  {
    QuotientBracketed(x, b);
  }

  /** The number a digit string denotes, most significant digit first. */
  function Value(b: nat, ds: Digits): nat {
    if ds == [] then 0 else Join(b, Value(b, ds[..|ds| - 1]), ds[|ds| - 1])
  }

  function Power(b: nat, n: nat): nat { if n == 0 then 1 else b * Power(b, n - 1) }

  /** The first digit is the most significant: it weighs the base to the number of digits after it. */
  lemma {:induction false} ValueOfFirst(b: nat, d: nat, ds: Digits)
    ensures Value(b, [d] + ds) == d * Power(b, |ds|) + Value(b, ds)
    decreases |ds|
  {
    if ds == [] {
      assert ([d] + ds)[..0] == [] && [d] + ds == [d];
      JoinZero(b, d);
    } else {
      hide Value;
      var init, low := ds[..|ds| - 1], ds[|ds| - 1];
      ValueOfFirst(b, d, init);
      ValueOfLast(b, init, low);
      ValueOfLast(b, [d] + init, low);
      assert ds == init + [low] && [d] + ds == [d] + init + [low];
      Horner(b, d, Power(b, |init|), Value(b, init), low);
    }
  }

  lemma ValueOfLast(b: nat, init: Digits, low: nat)
    ensures Value(b, init + [low]) == Join(b, Value(b, init), low)
  {
    assert (init + [low])[..|init|] == init;
  }

  lemma Horner(b: nat, d: nat, p: nat, v: nat, low: nat)
    ensures Join(b, d * p + v, low) == d * (b * p) + Join(b, v, low)
  {
    assert d * p * b == d * (b * p);
  }

  /** The shortest digit string of a number; zero has none. */
  function Numeral(b: nat, x: nat): (ds: Digits)
    requires b > 1
    ensures Fits(b, ds)
    decreases x
  {
    if x == 0 then [] else Numeral(b, High(b, x)) + [Low(b, x)]
  }

  function Zeros(n: nat): Digits { seq(n, _ => 0) }

  function LeadingZeros(ds: Digits): (n: nat)
    ensures n <= |ds| && (n < |ds| ==> ds[n] != 0)
    ensures forall i :: 0 <= i < n ==> ds[i] == 0
  {
    if ds == [] || ds[0] != 0 then 0 else 1 + LeadingZeros(ds[1..])
  }

  /** Re-expresses a digit string in another base, keeping one leading zero per leading zero. */
  function Recode(from: nat, target: nat, ds: Digits): Digits
    requires target > 1
  {
    Zeros(LeadingZeros(ds)) + Numeral(target, Value(from, ds))
  }

  lemma {:induction false} NumeralDenotes(b: nat, x: nat)
    requires b > 1
    ensures Value(b, Numeral(b, x)) == x
    ensures x > 0 ==> Numeral(b, x) != [] && Numeral(b, x)[0] != 0
    decreases x
  {
    hide High, Low, Join;
    if x > 0 {
      NumeralDenotes(b, High(b, x));
      var high := Numeral(b, High(b, x));
      assert Numeral(b, x)[..|high|] == high;
      SplitJoin(b, x);
    }
  }

  lemma {:induction false} NumeralUnique(b: nat, ds: Digits)
    requires b > 1 && Fits(b, ds) && (ds == [] || ds[0] != 0)
    ensures Numeral(b, Value(b, ds)) == ds
    ensures ds != [] ==> Value(b, ds) > 0
    decreases |ds|
  {
    if ds != [] {
      hide High, Low, Join, Value, Numeral;
      var high, low := ds[..|ds| - 1], ds[|ds| - 1];
      assert ds == high + [low];
      NumeralUnique(b, high);
      ValueOfLast(b, high, low);
      JoinSplit(b, Value(b, high), low);
      if high == [] {
        ValueOfNone(b);
        JoinZero(b, low);
      }
      NumeralStep(b, Value(b, ds));
    }
  }

  lemma ValueOfNone(b: nat)
    ensures Value(b, []) == 0
  {
  }

  lemma NumeralStep(b: nat, x: nat)
    requires b > 1 && x > 0
    ensures Numeral(b, x) == Numeral(b, High(b, x)) + [Low(b, x)]
  {
  }

  lemma JoinZero(b: nat, low: nat)
    ensures Join(b, 0, low) == low
  {
  }

  lemma {:induction false} ZerosAreNothing(b: nat, n: nat, ds: Digits)
    ensures Value(b, Zeros(n) + ds) == Value(b, ds)
    decreases n + |ds|
  {
    var all := Zeros(n) + ds;
    if ds != [] {
      assert all[..|all| - 1] == Zeros(n) + ds[..|ds| - 1];
      ZerosAreNothing(b, n, ds[..|ds| - 1]);
    } else if n > 0 {
      JoinZero(b, 0);
      assert all[..|all| - 1] == Zeros(n - 1) + [];
      ZerosAreNothing(b, n - 1, []);
    }
  }

  lemma LeadingZerosOf(n: nat, ds: Digits)
    requires ds == [] || ds[0] != 0
    ensures LeadingZeros(Zeros(n) + ds) == n
  {
    var all := Zeros(n) + ds;
    assert forall i :: 0 <= i < n ==> all[i] == 0;
    assert n < |all| ==> all[n] == ds[0];
  }

  /** Recoding to another base and back is the identity, leading zeros included. */
  lemma RecodeInverse(from: nat, target: nat, ds: Digits)
    requires from > 1 && target > 1 && Fits(from, ds)
    ensures Recode(target, from, Recode(from, target, ds)) == ds
  {
    var n, v := LeadingZeros(ds), Value(from, ds);
    var tail := ds[n..];
    assert ds == Zeros(n) + tail;
    ZerosAreNothing(from, n, tail);
    NumeralUnique(from, tail);
    NumeralDenotes(target, v);
    ZerosAreNothing(target, n, Numeral(target, v));
    LeadingZerosOf(n, Numeral(target, v));
  }

  lemma RecodeFits(from: nat, target: nat, ds: Digits)
    requires target > 1
    ensures Fits(target, Recode(from, target, ds))
  {
  }

  // ---- the alphabet ----

  /** Position of a character in the alphabet, run by run. */
  function Position(c: char): Option<nat> {
    if '1' <= c <= '9' then Some(c as nat - '1' as nat)
    else if 'A' <= c <= 'H' then Some(9 + c as nat - 'A' as nat)
    else if 'J' <= c <= 'N' then Some(17 + c as nat - 'J' as nat)
    else if 'P' <= c <= 'Z' then Some(22 + c as nat - 'P' as nat)
    else if 'a' <= c <= 'k' then Some(33 + c as nat - 'a' as nat)
    else if 'm' <= c <= 'z' then Some(44 + c as nat - 'm' as nat)
    else None
  }

  ghost predicate Consecutive(s: string, first: char) { forall i :: 0 <= i < |s| ==> s[i] as nat == first as nat + i }

  lemma Runs()
    ensures Consecutive("123456789", '1') && Consecutive("ABCDEFGH", 'A') && Consecutive("JKLMN", 'J')
    ensures Consecutive("PQRSTUVWXYZ", 'P') && Consecutive("abcdefghijk", 'a') && Consecutive("mnopqrstuvwxyz", 'm')
  {
  }

  lemma AlphabetPositions()
    ensures |ALPHABET| == RADIX
    ensures forall i :: 0 <= i < RADIX ==> Position(ALPHABET[i]) == Some(i)
  {
    Runs();
    var digits, upper1, upper2, upper3 := "123456789", "ABCDEFGH", "JKLMN", "PQRSTUVWXYZ";
    var lower1, lower2 := "abcdefghijk", "mnopqrstuvwxyz";
    forall i | 0 <= i < RADIX
      ensures Position(ALPHABET[i]) == Some(i)
    {
      PositionInRuns(digits, upper1, upper2, upper3, lower1, lower2, i);
    }
  }

  lemma PositionInRuns(a: string, b: string, c: string, d: string, e: string, f: string, i: nat)
    requires |a| == 9 && |b| == 8 && |c| == 5 && |d| == 11 && |e| == 11 && |f| == 14 && i < RADIX
    requires Consecutive(a, '1') && Consecutive(b, 'A') && Consecutive(c, 'J')
    requires Consecutive(d, 'P') && Consecutive(e, 'a') && Consecutive(f, 'm')
    ensures Position((a + b + c + d + e + f)[i]) == Some(i)
  {
  }

  function Letter(d: nat): (c: char)
    requires d < RADIX
    ensures Position(c) == Some(d)
  {
    AlphabetPositions();
    ALPHABET[d]
  }

  function TextOf(ds: Digits): string
    requires Fits(RADIX, ds)
  {
    seq(|ds|, i requires 0 <= i < |ds| => Letter(ds[i]))
  }

  predicate InAlphabet(s: string) { forall i :: 0 <= i < |s| ==> Position(s[i]).Some? }

  function DigitsOf(s: string): (ds: Digits)
    requires InAlphabet(s)
    ensures Fits(RADIX, ds) && |ds| == |s|
  {
    seq(|s|, i requires 0 <= i < |s| => Position(s[i]).value)
  }

  lemma TextInverse(ds: Digits)
    requires Fits(RADIX, ds)
    ensures InAlphabet(TextOf(ds)) && DigitsOf(TextOf(ds)) == ds
  {
    hide Position, Letter;
  }

  lemma DigitsInverse(s: string)
    requires InAlphabet(s)
    ensures TextOf(DigitsOf(s)) == s
  {
    hide Position, Letter;
    forall i | 0 <= i < |s|
      ensures TextOf(DigitsOf(s))[i] == s[i]
    {
      PositionInjective(s[i], s[i]);
      PositionInjective(Letter(Position(s[i]).value), s[i]);
    }
  }

  lemma PositionInjective(c: char, d: char)
    requires Position(c).Some? && Position(c) == Position(d)
    ensures c == d && Position(c).value < RADIX
  {
  }

  // ---- encoding and decoding ----

  function Encoded(input: Bytes): string {
    RecodeFits(256, RADIX, input);
    TextOf(Recode(256, RADIX, input))
  }

  datatype Result<+T> = Ok(value: T) | Err(why: Problem)
  datatype Problem = BadCharacter(c: char) | TooShort | BadChecksum

  function ToBytes(ds: Digits): Bytes
    requires Fits(256, ds)
  {
    seq(|ds|, i requires 0 <= i < |ds| => ds[i] as Byte)
  }

  function Decoded(s: string): Result<Bytes> {
    if InAlphabet(s) then
      RecodeFits(RADIX, 256, DigitsOf(s));
      Ok(ToBytes(Recode(RADIX, 256, DigitsOf(s))))
    else Err(BadCharacter(FirstBad(s)))
  }

  function FirstBad(s: string): (c: char)
    requires !InAlphabet(s)
    ensures Position(c).None? && c in s
  {
    if Position(s[0]).None? then s[0] else FirstBad(s[1..])
  }

  lemma DecodeEncode(input: Bytes)
    ensures InAlphabet(Encoded(input)) && Decoded(Encoded(input)) == Ok(input)
  {
    hide Recode, Position;
    RecodeFits(256, RADIX, input);
    TextInverse(Recode(256, RADIX, input));
    RecodeInverse(256, RADIX, input);
    assert ToBytes(input) == input;
  }

  lemma EncodeDecode(s: string)
    requires InAlphabet(s)
    ensures Decoded(s).Ok? && Encoded(Decoded(s).value) == s
  {
    hide Recode, Position;
    RecodeFits(RADIX, 256, DigitsOf(s));
    assert ToBytes(Recode(RADIX, 256, DigitsOf(s))) == Recode(RADIX, 256, DigitsOf(s));
    RecodeInverse(RADIX, 256, DigitsOf(s));
    DigitsInverse(s);
  }

  method CountZeros(input: Bytes) returns (zeros: nat)
    ensures zeros == LeadingZeros(input)
  {
    zeros := 0;
    while zeros < |input| && input[zeros] == 0
      invariant zeros <= |input|
      invariant LeadingZeros(input) == zeros + LeadingZeros(input[zeros..])
    {
      assert input[zeros..][1..] == input[zeros + 1..];
      zeros := zeros + 1;
    }
  }

  function Reversed<T>(s: seq<T>): seq<T> { seq(|s|, i requires 0 <= i < |s| => s[|s| - 1 - i]) }

  method Reverse(out: array<char>)
    modifies out
    ensures out[..] == Reversed(old(out[..]))
  {
    var i, j := 0, out.Length - 1;
    while i < j
      invariant 0 <= i && j == out.Length - 1 - i && i <= j + 1
      invariant forall k :: 0 <= k < i || j < k < out.Length ==> out[k] == old(out[out.Length - 1 - k])
      invariant forall k :: i <= k <= j ==> out[k] == old(out[k])
    {
      out[i], out[j] := out[j], out[i];
      i, j := i + 1, j - 1;
    }
  }

  /** Letters of a number, least significant first. */
  method EmitDigits(x: nat) returns (out: string)
    ensures out == Reversed(TextOf(Numeral(RADIX, x)))
  {
    hide High, Low, Position, Letter;
    out := [];
    var num := x;
    ghost var ds: Digits := [];
    while num > 0
      invariant Fits(RADIX, ds) && out == Reversed(TextOf(ds))
      invariant Numeral(RADIX, x) == Numeral(RADIX, num) + ds
      decreases num
    {
      var mod := Low(RADIX, num);
      out := out + [Letter(mod)];
      ds := [mod] + ds;
      num := High(RADIX, num);
    }
    assert Numeral(RADIX, 0) + ds == ds;
  }

  /** Digits come out least significant first, then the leading zeros, and the buffer is turned round. */
  method B58Encode(input: Bytes) returns (s: string)
    ensures s == Encoded(input)
    ensures Decoded(s) == Ok(input)
  {
    hide Position, Letter, Numeral, Decoded, Value, LeadingZeros, Reversed, Zeros;
    var zeros := CountZeros(input);
    var out := EmitDigits(Value(256, input));
    out := AppendOnes(out, zeros, Numeral(RADIX, Value(256, input)));
    var buffer := new char[|out|](i requires 0 <= i < |out| => out[i]);
    assert buffer[..] == out;
    Reverse(buffer);
    ReversedTwice(Encoded(input));
    DecodeEncode(input);
    return buffer[..];
  }

  method AppendOnes(text: string, zeros: nat, ghost ds: Digits) returns (out: string)
    requires Fits(RADIX, ds) && text == Reversed(TextOf(ds))
    ensures Fits(RADIX, Zeros(zeros) + ds) && out == Reversed(TextOf(Zeros(zeros) + ds))
  {
    hide Position, Letter, TextOf, Reversed;
    out := text;
    assert Zeros(0) + ds == ds;
    for i := 0 to zeros
      invariant Fits(RADIX, Zeros(i) + ds) && out == Reversed(TextOf(Zeros(i) + ds))
    {
      assert Zeros(i + 1) + ds == [0] + (Zeros(i) + ds);
      TextPrepend(Zeros(i) + ds);
      out := out + [Letter(0)];
    }
  }

  lemma TextPrepend(ds: Digits)
    requires Fits(RADIX, ds)
    ensures Fits(RADIX, [0] + ds) && Reversed(TextOf([0] + ds)) == Reversed(TextOf(ds)) + [Letter(0)]
  {
    hide Position, Letter;
  }

  lemma ReversedTwice<T>(s: seq<T>)
    ensures Reversed(Reversed(s)) == s
  {
  }

  method IndexRune(c: char) returns (index: Option<nat>)
    ensures index == Position(c)
  {
    hide Position, Letter;
    for i := 0 to RADIX
      invariant forall k :: 0 <= k < i ==> Letter(k) != c
    {
      if Letter(i) == c {
        return Some(i);
      }
    }
    if Position(c).Some? {
      PositionInjective(c, c);
      PositionInjective(Letter(Position(c).value), c);
      assert false;
    }
    return None;
  }

  /** The number a text denotes, or its first character outside the alphabet. */
  method ReadNumber(s: string) returns (r: Result<nat>)
    ensures r == if InAlphabet(s) then Ok(Value(RADIX, DigitsOf(s))) else Err(BadCharacter(FirstBad(s)))
  {
    hide Join, Position;
    var num := 0;
    for i := 0 to |s|
      invariant InAlphabet(s[..i])
      invariant num == Value(RADIX, DigitsOf(s[..i]))
    {
      var index := IndexRune(s[i]);
      if index.None? {
        FirstBadAt(s, i);
        return Err(BadCharacter(s[i]));
      }
      assert DigitsOf(s[..i + 1])[..i] == DigitsOf(s[..i]);
      num := Join(RADIX, num, index.value);
    }
    assert s[..|s|] == s;
    return Ok(num);
  }

  method CountOnes(s: string) returns (zeros: nat)
    requires InAlphabet(s)
    ensures zeros == LeadingZeros(DigitsOf(s))
  {
    hide Position, Letter;
    ghost var ds := DigitsOf(s);
    zeros := 0;
    while zeros < |s| && s[zeros] == Letter(0)
      invariant zeros <= |s|
      invariant LeadingZeros(ds) == zeros + LeadingZeros(ds[zeros..])
    {
      assert ds[zeros..][1..] == ds[zeros + 1..];
      zeros := zeros + 1;
    }
    if zeros < |s| && ds[zeros] == 0 {
      PositionInjective(s[zeros], Letter(0));
      assert false;
    }
  }

  method B58Decode(s: string) returns (r: Result<Bytes>)
    ensures r == Decoded(s)
    ensures r.Ok? <==> InAlphabet(s)
    ensures r.Ok? ==> Encoded(r.value) == s
  {
    hide Value, Numeral, Position, Encoded;
    var num := ReadNumber(s);
    if num.Err? {
      return Err(num.why);
    }
    var zeros := CountOnes(s);
    RecodeFits(RADIX, 256, DigitsOf(s));
    EncodeDecode(s);
    return Ok(ToBytes(Zeros(zeros) + Numeral(256, num.value)));
  }

  lemma {:induction false} FirstBadAt(s: string, i: nat)
    requires i < |s| && InAlphabet(s[..i]) && Position(s[i]).None?
    ensures !InAlphabet(s) && FirstBad(s) == s[i]
    decreases i
  {
    if i > 0 {
      assert s[..i][0] == s[0];
      assert s[1..][..i - 1] == s[..i][1..];
      FirstBadAt(s[1..], i - 1);
    }
  }

  // ---- with a checksum ----

  datatype Quad = Quad(a: Byte, b: Byte, c: Byte, d: Byte) {
    function Tail(): (t: Bytes)
      ensures |t| == 4
    {
      [a, b, c, d]
    }
  }

  method B58CheckEncode(checksum: Bytes -> Quad, payload: Bytes) returns (s: string)
    ensures s == CheckEncoded(checksum, payload)
  {
    s := B58Encode(payload + checksum(payload).Tail());
  }

  function CheckEncoded(checksum: Bytes -> Quad, payload: Bytes): string {
    Encoded(payload + checksum(payload).Tail())
  }

  /** A text decodes to a payload exactly when it is that payload's encoding. */
  method B58CheckDecode(checksum: Bytes -> Quad, s: string) returns (r: Result<Bytes>)
    ensures r == CheckDecoded(checksum, s)
    ensures forall payload :: r == Ok(payload) <==> s == CheckEncoded(checksum, payload)
  {
    forall payload: Bytes
      ensures CheckDecoded(checksum, s) == Ok(payload) <==> s == CheckEncoded(checksum, payload)
    {
      CheckDecodedIff(checksum, s, payload);
    }
    hide Decoded, CheckEncoded;
    r := B58Decode(s);
    if r.Err? {
      return;
    }
    var n := |r.value|;
    if n < 4 {
      return Err(TooShort);
    }
    var payload, sum := r.value[..n - 4], r.value[n - 4..];
    if checksum(payload).Tail() != sum {
      return Err(BadChecksum);
    }
    return Ok(payload);
  }

  function CheckDecoded(checksum: Bytes -> Quad, s: string): Result<Bytes> {
    var dec := Decoded(s);
    if dec.Err? then dec
    else if |dec.value| < 4 then Err(TooShort)
    else
      var n := |dec.value| - 4;
      if checksum(dec.value[..n]).Tail() == dec.value[n..] then Ok(dec.value[..n]) else Err(BadChecksum)
  }

  lemma CheckDecodedIff(checksum: Bytes -> Quad, s: string, payload: Bytes)
    ensures CheckDecoded(checksum, s) == Ok(payload) <==> s == CheckEncoded(checksum, payload)
  {
    hide Encoded, Recode;
    var full := payload + checksum(payload).Tail();
    DecodeEncode(full);
    assert full[..|full| - 4] == payload && full[|full| - 4..] == checksum(payload).Tail();
    if CheckDecoded(checksum, s) == Ok(payload) {
      EncodeDecode(s);
      assert Decoded(s).value == full;
    }
  }
}
