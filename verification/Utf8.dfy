/** UTF-8 as Rust strings use it: the bytes of a scalar value, the bytes of a string, the
    boundary test behind `str::is_char_boundary`, and the strict decoder behind `str::from_utf8`
    (section 3 of RFC 3629). */
module Utf8 {
  import opened Basics

  type Byte = b: int | 0 <= b < 256

  type Bytes = seq<Byte>

  function CharBytes(c: char): (b: Bytes)
    ensures 1 <= |b| <= 4
    ensures !IsContinuation(b[0])
    ensures forall i :: 1 <= i < |b| ==> IsContinuation(b[i])
  {
    var n := c as int;
    if n < 0x80 then
      [n]
    else if n < 0x800 then
      [0xC0 + n / 0x40, 0x80 + n % 0x40]
    else if n < 0x1_0000 then
      [0xE0 + n / 0x1000, 0x80 + n / 0x40 % 0x40, 0x80 + n % 0x40]
    else
      [0xF0 + n / 0x4_0000, 0x80 + n / 0x1000 % 0x40, 0x80 + n / 0x40 % 0x40, 0x80 + n % 0x40]
  }

  predicate IsContinuation(b: Byte) {
    0x80 <= b < 0xC0
  }

  function Encode(s: string): (b: Bytes)
    ensures |s| <= |b|
  {
    if s == "" then [] else CharBytes(s[0]) + Encode(s[1..])
  }

  /** `str::len`: the length of a string in bytes. */
  function Len(s: string): nat {
    |Encode(s)|
  }

  /** `str::is_char_boundary`. */
  predicate IsBoundary(b: Bytes, at: nat) {
    at == 0 || at == |b| || (at < |b| && !IsContinuation(b[at]))
  }

  lemma {:induction false} EncodeAppend(s: string, t: string)
    ensures Encode(s + t) == Encode(s) + Encode(t)
  {
    if s == "" {
      assert s + t == t;
    } else {
      assert (s + t)[1..] == s[1..] + t;
      EncodeAppend(s[1..], t);
    }
  }

  lemma EncodeSplit(s: string, k: nat)
    requires k <= |s|
    ensures Encode(s) == Encode(s[..k]) + Encode(s[k..])
  {
    assert s == s[..k] + s[k..];
    EncodeAppend(s[..k], s[k..]);
  }

  lemma EncodeOne(c: char)
    ensures Encode([c]) == CharBytes(c)
  {
  }

  /** The character that a byte offset falls in: `k` whole characters end at or before it. */
  lemma {:induction false} LocateOffset(s: string, at: nat) returns (k: nat)
    requires at <= Len(s)
    ensures k <= |s| && Len(s[..k]) <= at
    ensures k < |s| ==> at < Len(s[..k + 1])
    ensures k == |s| ==> at == Len(s)
  {
    if s == "" {
      k := 0;
    } else if at < |CharBytes(s[0])| {
      k := 0;
      EncodeOne(s[0]);
      assert s[..1] == [s[0]];
    } else {
      var j := LocateOffset(s[1..], at - |CharBytes(s[0])|);
      k := j + 1;
      assert s[..k][1..] == s[1..][..j];
      if k < |s| {
        assert s[..k + 1][1..] == s[1..][..j + 1];
      } else {
        assert s[..k] == s;
      }
    }
  }

  /** A byte offset is a boundary exactly when it is the encoded length of some whole-character
      prefix. */
  lemma BoundaryIff(s: string, at: nat)
    requires at <= Len(s)
    ensures IsBoundary(Encode(s), at) <==> exists k :: 0 <= k <= |s| && Len(s[..k]) == at
  {
    var k := LocateOffset(s, at);
    if Len(s[..k]) == at {
      BoundaryAt(s, k);
    } else {
      EncodeSplit(s, k);
      var offset := at - Len(s[..k]);
      assert s[k..][0] == s[k];
      assert Encode(s[k..]) == CharBytes(s[k]) + Encode(s[k..][1..]);
      PrefixStep(s, k);
      assert Encode(s)[at] == CharBytes(s[k])[offset];
      forall j | 0 <= j <= |s|
        ensures Len(s[..j]) != at
      {
        if j <= k { PrefixMonotone(s, j, k); } else { PrefixMonotone(s, k + 1, j); }
      }
    }
  }

  lemma PrefixStep(s: string, k: nat)
    requires k < |s|
    ensures Encode(s[..k + 1]) == Encode(s[..k]) + CharBytes(s[k])
  {
    assert s[..k + 1] == s[..k] + [s[k]];
    EncodeAppend(s[..k], [s[k]]);
    EncodeOne(s[k]);
  }

  lemma PrefixMonotone(s: string, j: nat, k: nat)
    requires j <= k <= |s|
    ensures Len(s[..j]) + (k - j) <= Len(s[..k])
  {
    assert s[..k] == s[..j] + s[j..k];
    EncodeAppend(s[..j], s[j..k]);
  }

  lemma BoundaryAt(s: string, k: nat)
    requires k <= |s|
    ensures IsBoundary(Encode(s), Len(s[..k]))
  {
    EncodeSplit(s, k);
    if k < |s| {
      assert Encode(s[k..]) == CharBytes(s[k..][0]) + Encode(s[k..][1..]);
      assert Encode(s)[Len(s[..k])] == CharBytes(s[k..][0])[0];
    } else {
      assert s[..k] == s;
    }
  }

  predicate IsScalar(n: int) {
    0 <= n < 0xD800 || 0xE000 <= n < 0x11_0000
  }

  /** What a byte carries below its marker bits. */
  function Bits(b: Byte, marker: int): int {
    b - marker
  }

  /** The scalar value a lead byte and its continuation bytes spell, and how many bytes it takes;
      a byte that cannot lead spells nothing. */
  function Candidate(b: Bytes): (int, nat)
    requires b != []
  {
    if b[0] < 0x80 then
      (b[0], 1)
    else if 0xC0 <= b[0] < 0xE0 && |b| >= 2 then
      (Bits(b[0], 0xC0) * 0x40 + Bits(b[1], 0x80), 2)
    else if 0xE0 <= b[0] < 0xF0 && |b| >= 3 then
      (Bits(b[0], 0xE0) * 0x1000 + Bits(b[1], 0x80) * 0x40 + Bits(b[2], 0x80), 3)
    else if 0xF0 <= b[0] < 0xF8 && |b| >= 4 then
      (Bits(b[0], 0xF0) * 0x4_0000 + Bits(b[1], 0x80) * 0x1000 + Bits(b[2], 0x80) * 0x40
       + Bits(b[3], 0x80), 4)
    else
      (-1, 0)
  }

  /** The first character of a byte string, refusing overlong, surrogate and stray forms: the
      bytes consumed are exactly the character's own encoding. */
  function DecodeFirst(b: Bytes): (r: Option<(char, nat)>)
    requires b != []
    ensures r.Some? ==> 1 <= r.value.1 <= |b| && CharBytes(r.value.0) == b[..r.value.1]
  {
    var (n, size) := Candidate(b);
    if IsScalar(n) && CharBytes(n as char) == b[..size] then Some((n as char, size)) else None
  }

  /** The base-64 digits `CharBytes` writes, put back together. */
  lemma DigitsRecombine(n: nat)
    ensures n / 0x40 * 0x40 + n % 0x40 == n
    ensures n / 0x1000 * 0x40 + n / 0x40 % 0x40 == n / 0x40
    ensures n / 0x4_0000 * 0x40 + n / 0x1000 % 0x40 == n / 0x1000
  {
  }

  lemma CandidateOfEncoded(c: char, b: Bytes)
    requires CharBytes(c) <= b
    ensures Candidate(b) == (c as int, |CharBytes(c)|)
  {
    DigitsRecombine(c as int);
    var own := CharBytes(c);
    assert forall i :: 0 <= i < |own| ==> b[i] == own[i];
  }

  lemma DecodeFirstEncoded(c: char, rest: Bytes)
    ensures DecodeFirst(CharBytes(c) + rest) == Some((c, |CharBytes(c)|))
  {
    var b := CharBytes(c) + rest;
    assert b[..|CharBytes(c)|] == CharBytes(c);
    CandidateOfEncoded(c, b);
  }

  /** `str::from_utf8`. */
  function Decode(b: Bytes): (r: Option<string>)
    decreases |b|
  {
    if b == [] then
      Some("")
    else
      var first := DecodeFirst(b);
      if first.None? then
        None
      else
        var rest := Decode(b[first.value.1..]);
        if rest.None? then None else Some([first.value.0] + rest.value)
  }

  /** Decoding accepts exactly the encodings, and inverts them. */
  lemma {:induction false} DecodeEncode(s: string)
    ensures Decode(Encode(s)) == Some(s)
  {
    if s != "" {
      DecodeEncode(s[1..]);
      DecodeFirstEncoded(s[0], Encode(s[1..]));
      assert Encode(s)[|CharBytes(s[0])|..] == Encode(s[1..]);
      assert s == [s[0]] + s[1..];
    }
  }

  lemma {:induction false} DecodeSound(b: Bytes)
    ensures Decode(b).Some? ==> Encode(Decode(b).value) == b
    decreases |b|
  {
    if b != [] && Decode(b).Some? {
      var first := DecodeFirst(b).value;
      DecodeSound(b[first.1..]);
      assert Decode(b).value[1..] == Decode(b[first.1..]).value;
    }
  }

  /** The longest whole-character prefix of `s` that fits in `room` bytes. */
  function Fit(s: string, room: nat): (p: string)
    ensures p <= s
    ensures Len(p) <= room
    ensures |p| < |s| ==> room < Len(s[..|p| + 1])
  {
    if s == "" || |CharBytes(s[0])| > room then
      assert s != "" ==> s[..1][1..] == "";
      ""
    else
      var rest := Fit(s[1..], room - |CharBytes(s[0])|);
      assert ([s[0]] + rest)[1..] == rest;
      assert |rest| < |s| - 1 ==> s[..|rest| + 2][1..] == s[1..][..|rest| + 1];
      [s[0]] + rest
  }

  lemma FitAll(s: string, room: nat)
    requires Len(s) <= room
    ensures Fit(s, room) == s
  {
  }

  lemma FitCons(s: string, room: nat)
    requires s != "" && |CharBytes(s[0])| <= room
    ensures Fit(s, room) == [s[0]] + Fit(s[1..], room - |CharBytes(s[0])|)
  {
    hide CharBytes, Encode;
  }

  /** What follows a text that fits gets the room it leaves. */
  lemma {:induction false} FitSplit(a: string, b: string, room: nat)
    requires Len(a) <= room
    ensures Fit(a + b, room) == a + Fit(b, room - Len(a))
    decreases |a|
  {
    hide Fit, CharBytes;
    if a == "" {
      assert a + b == b;
      assert "" + Fit(b, room) == Fit(b, room);
    } else {
      var left := room - |CharBytes(a[0])|;
      FitCons(a + b, room);
      assert (a + b)[1..] == a[1..] + b;
      FitSplit(a[1..], b, left);
      assert [a[0]] + (a[1..] + Fit(b, room - Len(a))) == ([a[0]] + a[1..]) + Fit(b, room - Len(a));
    }
  }

  /** What follows a text that does not fit gets nothing. */
  lemma {:induction false} FitOver(a: string, b: string, room: nat)
    requires Len(a) > room
    ensures Fit(a + b, room) == Fit(a, room)
    decreases |a|
  {
    assert (a + b)[1..] == a[1..] + b;
    if |CharBytes(a[0])| <= room {
      FitOver(a[1..], b, room - |CharBytes(a[0])|);
    }
  }

  /** `utf8_prefix_length`: the byte length of the longest whole-character prefix within a bound. */
  method PrefixLength(value: Bytes, maximum: nat, ghost text: string) returns (end: nat)
    requires value == Encode(text)
    ensures end == Len(Fit(text, maximum))
    ensures end <= |value| && value[..end] == Encode(Fit(text, maximum))
  {
    end := Min(|value|, maximum);
    FitWithin(text, maximum);
    while end > 0 && !(end == |value| || !IsContinuation(value[end]))
      invariant end <= |value| && end <= maximum
      invariant Len(Fit(text, maximum)) <= end
    {
      FitBelow(text, maximum, end);
      end := end - 1;
    }
    FitFound(text, maximum, end);
  }

  lemma FitWithin(text: string, room: nat)
    ensures Len(Fit(text, room)) <= Len(text)
  {
  }

  /** Above the fitting prefix no offset within the bound is a boundary. */
  lemma FitBelow(text: string, maximum: nat, at: nat)
    requires Len(Fit(text, maximum)) <= at <= Len(text) && at <= maximum
    ensures IsBoundary(Encode(text), at) <==> at == Len(Fit(text, maximum))
  {
    var p := Fit(text, maximum);
    assert text[..|p|] == p;
    BoundaryIff(text, at);
    if at == Len(p) {
      BoundaryAt(text, |p|);
    } else {
      forall k | 0 <= k <= |text|
        ensures Len(text[..k]) != at
      {
        if k <= |p| { PrefixMonotone(text, k, |p|); } else { PrefixMonotone(text, |p| + 1, k); }
      }
    }
  }

  lemma FitFound(text: string, maximum: nat, end: nat)
    requires Len(Fit(text, maximum)) <= end <= Len(text) && end <= maximum
    requires end == 0 || IsBoundary(Encode(text), end)
    ensures end == Len(Fit(text, maximum))
    ensures Encode(text)[..end] == Encode(Fit(text, maximum))
  {
    var p := Fit(text, maximum);
    FitBelow(text, maximum, end);
    assert text[..|p|] == p;
    EncodeSplit(text, |p|);
  }
}
