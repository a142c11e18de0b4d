/**
 The hexadecimal codec of src/utility.h: `hex_vec` prints bytes as upper-case digits,
 `from_hex_vec` scans a text backwards and skips everything that is not a letter or a digit.
 Text and bytes are both octets.
 */
module HexCodec {

  type octet = x: int | 0 <= x < 256

  type digit = c: octet | IsConvertable(c) witness 48

  /** The table `_bits`. */
  function DigitOf(n: octet): digit
    requires n < 16
  {
    if n < 10 then 48 + n else 55 + n
  }

  /** `is_convertable`: any ASCII digit or letter; a negative `char` is neither. */
  predicate IsConvertable(ch: octet) {
    48 <= ch <= 57 || 65 <= ch <= 90 || 97 <= ch <= 122
  }

  /** Letters beyond `F` are accepted and convert to 16 and more. */
  function Convert(ch: digit): (v: octet)
    ensures v < 36
  {
    assert IsConvertable(ch);
    if ch <= 57 then ch - 48 else if ch <= 90 then ch - 65 + 10 else ch - 97 + 10
  }

  /** Bitwise or of `n` with a number below four. */
  function OrSmall(n: nat, k: nat): nat
    requires k < 3
  {
    if k == 0 || (n / k) % 2 == 1 then n else n + k
  }

  /** `(left << 4) | right`, cut to eight bits. */
  function Combine(left: digit, right: digit): octet
  {
    var l, r := Convert(left), Convert(right);
    (16 * OrSmall(l, r / 16) + r % 16) % 256
  }

  function Reverse<T>(s: seq<T>): seq<T> {
    if s == [] then [] else [s[|s| - 1]] + Reverse(s[..|s| - 1])
  }

  /** The digits of a text, separators dropped. */
  function Digits(s: seq<octet>): seq<digit> {
    if s == [] then []
    else if IsConvertable(s[|s| - 1]) then Digits(s[..|s| - 1]) + [s[|s| - 1]]
    else Digits(s[..|s| - 1])
  }

  /** Octets read off a digit string two at a time from the back; an odd first digit is ignored. */
  function Pairs(d: seq<digit>): seq<octet>
  {
    if |d| < 2 then [] else [Combine(d[|d| - 2], d[|d| - 1])] + Pairs(d[..|d| - 2])
  }

  function Decode(hex: seq<octet>, rev: bool): seq<octet> {
    if rev then Reverse(Pairs(Digits(hex))) else Pairs(Digits(hex))
  }

  /** Two digits an octet, in order. */
  function Print(b: seq<octet>): seq<digit> {
    if b == [] then [] else [DigitOf(b[0] / 16), DigitOf(b[0] % 16)] + Print(b[1..])
  }

  function Encode(b: seq<octet>, rev: bool): seq<octet> {
    if rev then Print(b) else Print(Reverse(b))
  }

  // ----- Reversal -----

  lemma {:induction false} ReverseAt<T>(s: seq<T>, k: nat)
    requires k < |s|
    ensures |Reverse(s)| == |s| && Reverse(s)[k] == s[|s| - 1 - k]
  {
    if k > 0 {
      ReverseAt(s[..|s| - 1], k - 1);
    } else if |s| > 1 {
      ReverseAt(s[..|s| - 1], 0);
    }
  }

  lemma {:induction false} ReverseInvolutive<T>(s: seq<T>)
    ensures Reverse(Reverse(s)) == s
  {
    if s != [] {
      ReverseAt(s, 0);
      var r := Reverse(s);
      forall k | 0 <= k < |s|
        ensures |Reverse(r)| == |s| && Reverse(r)[k] == s[k]
      {
        ReverseAt(r, k);
        ReverseAt(s, |s| - 1 - k);
      }
      ReverseAt(r, 0);
    }
  }

  // ----- Round trip -----

  lemma NibbleRoundTrip(x: octet)
    ensures Combine(DigitOf(x / 16), DigitOf(x % 16)) == x
  {
    DigitConverts(x / 16);
    DigitConverts(x % 16);
    hide Convert, DigitOf;
    assert x == 16 * (x / 16) + x % 16;
  }

  lemma DigitConverts(n: octet)
    requires n < 16
    ensures Convert(DigitOf(n)) == n
  {
  }

  lemma {:induction false} PrintSnoc(b: seq<octet>, x: octet)
    ensures Print(b + [x]) == Print(b) + [DigitOf(x / 16), DigitOf(x % 16)]
  {
    if b == [] {
      assert (b + [x])[1..] == [];
    } else {
      PrintSnoc(b[1..], x);
      assert (b + [x])[1..] == b[1..] + [x];
    }
  }

  lemma {:induction false} PrintLength(b: seq<octet>)
    ensures |Print(b)| == 2 * |b|
  {
    if b != [] {
      PrintLength(b[1..]);
    }
  }

  lemma {:induction false} DigitsKept(d: seq<digit>)
    ensures Digits(d) == d
  {
    if d != [] {
      DigitsKept(d[..|d| - 1]);
    }
  }

  lemma PairsSnoc(d: seq<digit>, hi: digit, lo: digit)
    ensures Pairs(d + [hi, lo]) == [Combine(hi, lo)] + Pairs(d)
  {
    assert (d + [hi, lo])[..|d| + 2 - 2] == d;
  }

  lemma {:induction false} PairsOfPrint(b: seq<octet>)
    ensures Pairs(Print(b)) == Reverse(b)
  {
    if b != [] {
      var init, x := b[..|b| - 1], b[|b| - 1];
      PrintSnoc(init, x);
      assert b == init + [x];
      PrintLength(init);
      PairsOfPrint(init);
      NibbleRoundTrip(x);
      PairsSnoc(Print(init), DigitOf(x / 16), DigitOf(x % 16));
    }
  }

  /** Decoding what was printed gives the octets back, for either order. */
  lemma {:induction false} RoundTrip(b: seq<octet>, rev: bool)
    ensures Decode(Encode(b, rev), rev) == b
  {
    var w := if rev then b else Reverse(b);
    PrintLength(w);
    DigitsKept(Print(w));
    PairsOfPrint(w);
    ReverseInvolutive(b);
  }

  // ----- Separators -----

  lemma {:induction false} DigitsConcat(a: seq<octet>, b: seq<octet>)
    ensures Digits(a + b) == Digits(a) + Digits(b)
  {
    if b == [] {
      assert a + b == a;
    } else {
      DigitsConcat(a, b[..|b| - 1]);
      assert (a + b)[..|a + b| - 1] == a + b[..|b| - 1];
    }
  }

  /** Text that is neither letter nor digit may be inserted anywhere. */
  lemma {:induction false} SeparatorsIgnored(hex: seq<octet>, i: nat, sep: seq<octet>, rev: bool)
    requires i <= |hex|
    requires forall c :: c in sep ==> !IsConvertable(c)
    ensures Decode(hex[..i] + sep + hex[i..], rev) == Decode(hex, rev)
  {
    NoDigits(sep);
    DigitsConcat(hex[..i] + sep, hex[i..]);
    DigitsConcat(hex[..i], sep);
    DigitsConcat(hex[..i], hex[i..]);
    assert hex[..i] + hex[i..] == hex;
    assert Digits(hex[..i] + sep + hex[i..]) == Digits(hex);
  }

  lemma {:induction false} NoDigits(sep: seq<octet>)
    requires forall c :: c in sep ==> !IsConvertable(c)
    ensures Digits(sep) == []
  {
    if sep != [] {
      NoDigits(sep[..|sep| - 1]);
    }
  }

  lemma {:induction false} PairsLength(d: seq<digit>)
    ensures |Pairs(d)| == |d| / 2
  {
    if |d| >= 2 {
      PairsLength(d[..|d| - 2]);
    }
  }

  // ----- Letters of either case -----

  /** Capital letters made small. */
  function Small(s: seq<octet>): seq<octet> {
    seq(|s|, i requires 0 <= i < |s| => if 65 <= s[i] <= 90 then s[i] + 32 else s[i])
  }

  function SmallDigits(d: seq<digit>): seq<digit> {
    seq(|d|, i requires 0 <= i < |d| => if 65 <= d[i] <= 90 then d[i] + 32 else d[i])
  }

  lemma {:induction false} DigitsOfSmall(s: seq<octet>)
    ensures Digits(Small(s)) == SmallDigits(Digits(s))
  {
    if s != [] {
      var n := |s| - 1;
      DigitsOfSmall(s[..n]);
      assert Small(s)[..n] == Small(s[..n]);
    } else {
      assert Small(s) == [] && SmallDigits([]) == [];
    }
  }

  lemma SmallCombines(left: digit, right: digit)
    ensures Combine(if 65 <= left <= 90 then left + 32 else left, if 65 <= right <= 90 then right + 32 else right)
         == Combine(left, right)
  {
  }

  lemma {:induction false} PairsOfSmall(d: seq<digit>)
    ensures Pairs(SmallDigits(d)) == Pairs(d)
  {
    hide Combine;
    var n := |d|;
    if n >= 2 {
      PairsOfSmall(d[..n - 2]);
      SmallCombines(d[n - 2], d[n - 1]);
      assert SmallDigits(d)[..n - 2] == SmallDigits(d[..n - 2]);
    }
  }

  /** Any text decodes to the same octets when its letters are made small. */
  lemma CaseIgnored(hex: seq<octet>, rev: bool)
    ensures Decode(Small(hex), rev) == Decode(hex, rev)
  {
    DigitsOfSmall(hex);
    PairsOfSmall(Digits(hex));
  }

  // ----- The loops -----

  /** Two digits go into the buffer, the high one first. */
  method PutOctet(buf: array<octet>, it: nat, x: octet)
    requires it + 2 <= buf.Length
    modifies buf
    ensures buf[..it + 2] == old(buf[..it]) + [DigitOf(x / 16), DigitOf(x % 16)]
  {
    buf[it] := DigitOf(x / 16);
    buf[it + 1] := DigitOf(x % 16);
    assert buf[..it + 2] == buf[..it] + [buf[it], buf[it + 1]];
  }

  /** `hex_vec`: fills a buffer of twice the size, walking the octets forwards or backwards. */
  method HexVec(b: seq<octet>, rev: bool) returns (hex: seq<octet>)
    ensures hex == Encode(b, rev)
  {
    var buf := new octet[2 * |b|];
    ghost var walked := if rev then b else Reverse(b);
    assert |walked| == |b| by {
      if b != [] {
        ReverseAt(b, 0);
      }
    }
    assert walked[..0] == [] && Print([]) == [];
    for n := 0 to |b|
      invariant buf[..2 * n] == Print(walked[..n])
    {
      hide Print, DigitOf;
      var k := if rev then n else |b| - 1 - n;
      assert walked[n] == b[k] by {
        ReverseAt(b, n);
      }
      PutOctet(buf, 2 * n, b[k]);
      PrintSnoc(walked[..n], b[k]);
      assert walked[..n + 1] == walked[..n] + [b[k]];
    }
    assert walked[..|b|] == walked;
    assert buf[..] == buf[..2 * |b|];
    hex := buf[..];
  }

  /** Moves `data` back to the nearest convertable octet; it never leaves the text. */
  method ScanBack(hex: seq<octet>, from: int) returns (data: int)
    requires 0 <= from + 1 <= |hex|
    requires Digits(hex[..from + 1]) != []
    ensures 0 <= data <= from
    ensures IsConvertable(hex[data])
    ensures Digits(hex[..from + 1]) == Digits(hex[..data]) + [hex[data]]
  {
    data := from;
    while !IsConvertable(hex[data])
      invariant 0 <= data <= from
      invariant Digits(hex[..data + 1]) == Digits(hex[..from + 1])
      decreases data
    {
      assert hex[..data + 1][..data] == hex[..data];
      assert data > 0;
      data := data - 1;
    }
    assert hex[..data + 1][..data] == hex[..data];
  }

  lemma PairsFront(d: seq<digit>, left: digit, right: digit)
    ensures |Pairs(d)| == |d| / 2
    ensures Pairs(d + [left] + [right]) == [Combine(left, right)] + Pairs(d)
  {
    PairsLength(d);
    assert d + [left] + [right] == d + [left, right];
    PairsSnoc(d, left, right);
  }

  /** One octet of the loop in `from_hex_vec`: the right digit first, then the left one. */
  method ScanOctet(hex: seq<octet>, from: int) returns (v: octet, data: int)
    requires 0 <= from + 1 <= |hex|
    requires |Digits(hex[..from + 1])| >= 2
    ensures -1 <= data < from
    ensures |Digits(hex[..data + 1])| == |Digits(hex[..from + 1])| - 2
    ensures Pairs(Digits(hex[..from + 1])) == [v] + Pairs(Digits(hex[..data + 1]))
  {
    var r := ScanBack(hex, from);
    assert hex[..r - 1 + 1] == hex[..r];
    var l := ScanBack(hex, r - 1);
    PairsFront(Digits(hex[..l]), hex[l], hex[r]);
    v := Combine(hex[l], hex[r]);
    data := l - 1;
    assert hex[..data + 1] == hex[..l];
  }

  /** `from_hex_vec`: the number of octets is fixed by a count before the scan begins. */
  method FromHexVec(hex: seq<octet>, rev: bool) returns (out: seq<octet>)
    ensures out == Decode(hex, rev)
  {
    hide Pairs, Digits;
    var size := |Digits(hex)| / 2;
    var buf := new octet[size];
    var data := |hex| - 1;
    assert hex[..data + 1] == hex;
    for n := 0 to size
      invariant -1 <= data < |hex|
      invariant |Digits(hex[..data + 1])| == |Digits(hex)| - 2 * n
      invariant Pairs(Digits(hex)) == buf[..n] + Pairs(Digits(hex[..data + 1]))
    {
      var v, next := ScanOctet(hex, data);
      buf[n] := v;
      assert buf[..n + 1] == buf[..n] + [v];
      data := next;
    }
    PairsLength(Digits(hex[..data + 1]));
    out := buf[..];
    assert out == Pairs(Digits(hex)) by {
      assert buf[..] == buf[..size];
      assert Pairs(Digits(hex[..data + 1])) == [];
    }
    out := if rev then Reverse(out) else out;
  }
}
