/**
 * The bit string of an EAN-8 symbol: start marker, the left half of the digits in
 * number set A, the centre separator, the right half in number set C, end marker.
 * The construction and its inverse are written for any pair of digit tables; `Encode`
 * and `Decode` are the two with the EAN tables.
 */
module Encoding {
  import opened Wrappers
  import opened Digits
  import opened CodeTables

  /** The patterns of the digits of `s`, in order, from the table `t`. */
  function Blocks(s: string, t: map<int, string>): (r: string)
    requires AllDigits(s) && IsTable(t)
    ensures |r| == 7 * |s|
    decreases |s|
  {
    if s == [] then [] else t[Value(s[0])] + Blocks(s[1..], t)
  }

  /** Encoding a concatenation concatenates the encodings. */
  lemma {:induction false} BlocksAppend(s: string, u: string, t: map<int, string>)
    requires AllDigits(s) && AllDigits(u) && IsTable(t)
    ensures AllDigits(s + u)
    ensures Blocks(s + u, t) == Blocks(s, t) + Blocks(u, t)
    decreases |s|
  {
    if s != [] {
      assert (s + u)[1..] == s[1..] + u;
      BlocksAppend(s[1..], u, t);
    } else {
      assert s + u == u;
    }
  }

  /** Extending a slice of digits by one digit extends its encoding by that digit's pattern. */
  lemma BlocksExtend(s: string, lo: nat, i: nat, t: map<int, string>)
    requires AllDigits(s) && IsTable(t)
    requires lo <= i < |s|
    ensures Blocks(s[lo..i + 1], t) == Blocks(s[lo..i], t) + t[Value(s[i])]
  {
    assert s[lo..i + 1] == s[lo..i] + [s[i]];
    BlocksAppend(s[lo..i], [s[i]], t);
    assert [s[i]][1..] == [];
  }

  /** Block `i` of `Blocks(s, t)` is the pattern of digit `i`. */
  lemma {:induction false} BlockAt(s: string, t: map<int, string>, i: nat)
    requires AllDigits(s) && IsTable(t)
    requires i < |s|
    ensures Blocks(s, t)[7 * i..7 * i + 7] == t[Value(s[i])]
    decreases |s|
  {
    var p := t[Value(s[0])];
    var rest := Blocks(s[1..], t);
    assert Blocks(s, t) == p + rest;
    if i > 0 {
      BlockAt(s[1..], t, i - 1);
      assert (p + rest)[7 * i..7 * i + 7] == rest[7 * (i - 1)..7 * (i - 1) + 7];
    }
  }

  lemma {:induction false} BlocksAreBits(s: string, t: map<int, string>)
    requires AllDigits(s) && IsTable(t)
    ensures IsBitString(Blocks(s, t))
    decreases |s|
  {
    if s != [] {
      BlocksAreBits(s[1..], t);
    }
  }

  /** The two encoded halves framed by the markers and the separator. */
  function Frame(left: string, right: string): string {
    StartMarker + left + Separator + right + EndMarker
  }

  /** The five parts of a framed string can be sliced back out of it. */
  lemma FrameSlices(left: string, right: string)
    ensures |Frame(left, right)| == |left| + |right| + 11
    ensures Frame(left, right)[..3] == StartMarker
    ensures Frame(left, right)[3..3 + |left|] == left
    ensures Frame(left, right)[3 + |left|..8 + |left|] == Separator
    ensures Frame(left, right)[8 + |left|..|left| + |right| + 8] == right
    ensures Frame(left, right)[|left| + |right| + 8..] == EndMarker
  {
    var raw := Frame(left, right);
    var a := StartMarker + left;
    var b := a + Separator;
    var c := b + right;
    assert raw == c + EndMarker;
    assert c[..|b|] == b && b[..|a|] == a;
    assert raw[..3] == a[..3];
    assert raw[3..3 + |left|] == a[3..];
    assert raw[3 + |left|..8 + |left|] == b[|a|..];
    assert raw[8 + |left|..|left| + |right| + 8] == c[|b|..];
  }

  /** A string whose marker and separator slices are right is the frame of its two halves. */
  lemma FrameOfSlices(raw: string, n: nat)
    requires |raw| >= n + 11
    requires raw[..3] == StartMarker && raw[3 + n..8 + n] == Separator && raw[|raw| - 3..] == EndMarker
    ensures raw == Frame(raw[3..3 + n], raw[8 + n..|raw| - 3])
  {
    var left, right := raw[3..3 + n], raw[8 + n..|raw| - 3];
    FrameSlices(left, right);
    var f := Frame(left, right);
    forall k | 0 <= k < |raw|
      ensures raw[k] == f[k]
    {
      if k < 3 {
        assert raw[k] == raw[..3][k] && f[k] == f[..3][k];
      } else if k < 3 + n {
        assert raw[k] == left[k - 3] && f[k] == f[3..3 + n][k - 3];
      } else if k < 8 + n {
        assert raw[k] == raw[3 + n..8 + n][k - 3 - n] && f[k] == f[3 + n..8 + n][k - 3 - n];
      } else if k < |raw| - 3 {
        assert raw[k] == right[k - 8 - n] && f[k] == f[8 + n..|raw| - 3][k - 8 - n];
      } else {
        assert raw[k] == raw[|raw| - 3..][k - |raw| + 3] && f[k] == f[|raw| - 3..][k - |raw| + 3];
      }
    }
  }

  lemma {:induction false} HalvesAreBits(left: string, right: string)
    requires IsBitString(left) && IsBitString(right)
    ensures IsBitString(Frame(left, right))
  {
    var raw := Frame(left, right);
    FrameSlices(left, right);
    forall k | 0 <= k < |raw|
      ensures IsBit(raw[k])
    {
      if k < 3 {
        assert raw[k] == raw[..3][k];
      } else if k < 3 + |left| {
        assert raw[k] == raw[3..3 + |left|][k - 3];
      } else if k < 8 + |left| {
        assert raw[k] == raw[3 + |left|..8 + |left|][k - 3 - |left|];
      } else if k < |raw| - 3 {
        assert raw[k] == raw[8 + |left|..|raw| - 3][k - 8 - |left|];
      } else {
        assert raw[k] == raw[|raw| - 3..][k - |raw| + 3];
      }
    }
  }

  /** The bit string for the digit string `s`, the first `|s| / 2` digits in table `lt`, the rest in `rt`. */
  function EncodeWith(s: string, lt: map<int, string>, rt: map<int, string>): string
    requires AllDigits(s) && IsTable(lt) && IsTable(rt)
  {
    var h := |s| / 2;
    Frame(Blocks(s[..h], lt), Blocks(s[h..], rt))
  }

  /** The EAN-8 bit string for the digit string `s`. */
  function Encode(s: string): (r: string)
    requires AllDigits(s)
    ensures |r| == 11 + 7 * |s| && IsBitString(r)
    ensures r[..3] == StartMarker && r[|r| - 3..] == EndMarker
  {
    TablesWellFormed();
    EncodeWithFrame(s, LCode, RCode);
    EncodeWith(s, LCode, RCode)
  }

  /** Where the separator starts in the encoding of `n` digits. */
  function SeparatorStart(n: nat): nat {
    3 + 7 * (n / 2)
  }

  /** Where the pattern of digit `i` starts in the encoding of `n` digits. */
  function BlockStart(n: nat, i: nat): nat {
    if i < n / 2 then 3 + 7 * i else 8 + 7 * i
  }

  lemma EncodeWithFrame(s: string, lt: map<int, string>, rt: map<int, string>)
    requires AllDigits(s) && IsTable(lt) && IsTable(rt)
    ensures |EncodeWith(s, lt, rt)| == 11 + 7 * |s|
    ensures EncodeWith(s, lt, rt)[..3] == StartMarker
    ensures EncodeWith(s, lt, rt)[SeparatorStart(|s|)..SeparatorStart(|s|) + 5] == Separator
    ensures EncodeWith(s, lt, rt)[|EncodeWith(s, lt, rt)| - 3..] == EndMarker
    ensures IsBitString(EncodeWith(s, lt, rt))
  {
    var h := |s| / 2;
    var left, right := Blocks(s[..h], lt), Blocks(s[h..], rt);
    FrameSlices(left, right);
    assert |left| + |right| == 7 * |s|;
    BlocksAreBits(s[..h], lt);
    BlocksAreBits(s[h..], rt);
    HalvesAreBits(left, right);
  }

  lemma EncodeWithLeftBlock(s: string, i: nat, lt: map<int, string>, rt: map<int, string>)
    requires AllDigits(s) && IsTable(lt) && IsTable(rt)
    requires i < |s| / 2
    ensures 3 + 7 * i + 7 <= |EncodeWith(s, lt, rt)|
    ensures EncodeWith(s, lt, rt)[3 + 7 * i..3 + 7 * i + 7] == lt[Value(s[i])]
  {
    var h := |s| / 2;
    var left, right := Blocks(s[..h], lt), Blocks(s[h..], rt);
    var raw := Frame(left, right);
    FrameSlices(left, right);
    BlockAt(s[..h], lt, i);
    assert raw[3 + 7 * i..3 + 7 * i + 7] == raw[3..3 + |left|][7 * i..7 * i + 7];
  }

  lemma EncodeWithRightBlock(s: string, i: nat, lt: map<int, string>, rt: map<int, string>)
    requires AllDigits(s) && IsTable(lt) && IsTable(rt)
    requires |s| / 2 <= i < |s|
    ensures 8 + 7 * i + 7 <= |EncodeWith(s, lt, rt)|
    ensures EncodeWith(s, lt, rt)[8 + 7 * i..8 + 7 * i + 7] == rt[Value(s[i])]
  {
    var h := |s| / 2;
    var left, right := Blocks(s[..h], lt), Blocks(s[h..], rt);
    var raw := Frame(left, right);
    FrameSlices(left, right);
    BlockAt(s[h..], rt, i - h);
    assert s[h..][i - h] == s[i];
    assert raw[8 + 7 * i..8 + 7 * i + 7] == raw[8 + |left|..|raw| - 3][7 * (i - h)..7 * (i - h) + 7];
  }

  /** Every digit's pattern sits at its block's place: the left table's before the separator, the right table's after. */
  lemma EncodeWithBlocks(s: string, lt: map<int, string>, rt: map<int, string>)
    requires AllDigits(s) && IsTable(lt) && IsTable(rt)
    ensures |EncodeWith(s, lt, rt)| == 11 + 7 * |s|
    ensures forall i :: 0 <= i < |s| ==>
      EncodeWith(s, lt, rt)[BlockStart(|s|, i)..BlockStart(|s|, i) + 7] == (if i < |s| / 2 then lt else rt)[Value(s[i])]
  {
    EncodeWithFrame(s, lt, rt);
    var raw := EncodeWith(s, lt, rt);
    forall i | 0 <= i < |s|
      ensures raw[BlockStart(|s|, i)..BlockStart(|s|, i) + 7] == (if i < |s| / 2 then lt else rt)[Value(s[i])]
    {
      if i < |s| / 2 {
        EncodeWithLeftBlock(s, i, lt, rt);
      } else {
        EncodeWithRightBlock(s, i, lt, rt);
      }
    }
  }

  /** The length formula and where the markers, the separator and every digit's pattern sit. */
  lemma EncodeShape(s: string)
    requires AllDigits(s)
    ensures |Encode(s)| == 11 + 7 * |s|
    ensures Encode(s)[..3] == StartMarker
    ensures Encode(s)[SeparatorStart(|s|)..SeparatorStart(|s|) + 5] == Separator
    ensures Encode(s)[|Encode(s)| - 3..] == EndMarker
    ensures forall i :: 0 <= i < |s| ==>
      Encode(s)[BlockStart(|s|, i)..BlockStart(|s|, i) + 7] == Pattern(i < |s| / 2, Value(s[i]))
    ensures IsBitString(Encode(s))
  {
    TablesWellFormed();
    EncodeWithFrame(s, LCode, RCode);
    EncodeWithBlocks(s, LCode, RCode);
    assert forall left: bool, d :: 0 <= d <= 9 ==> Pattern(left, d) == (if left then LCode else RCode)[d];
  }

  /** Reads seven bits at a time back into digits through the reverse lookup in `t`. */
  function DecodeBlocks(bits: string, t: map<int, string>): (r: Option<string>)
    ensures r.Some? ==> AllDigits(r.value) && |bits| == 7 * |r.value|
    decreases |bits|
  {
    if bits == [] then Some([])
    else if |bits| < 7 then None
    else
      var d := Lookup(t, bits[..7]);
      if d < 0 then None
      else match DecodeBlocks(bits[7..], t)
        case None => None
        case Some(rest) => Some([DigitChar(d)] + rest)
  }

  /** Both halves' digits, when both halves decode. */
  function Join(a: Option<string>, b: Option<string>): (r: Option<string>)
    ensures r.Some? <==> a.Some? && b.Some?
    ensures r.Some? ==> r.value == a.value + b.value
  {
    if a.None? || b.None? then None else Some(a.value + b.value)
  }

  /** The digit string a bit string encodes with tables `lt` and `rt`, if it is the encoding of one. */
  function DecodeWith(raw: string, lt: map<int, string>, rt: map<int, string>): Option<string> {
    if |raw| < 11 || (|raw| - 11) % 7 != 0 then None
    else
      var sep := SeparatorStart((|raw| - 11) / 7);
      if raw[..3] != StartMarker || raw[sep..sep + 5] != Separator || raw[|raw| - 3..] != EndMarker then None
      else Join(DecodeBlocks(raw[3..sep], lt), DecodeBlocks(raw[sep + 5..|raw| - 3], rt))
  }

  /** The digit string an EAN-8 bit string encodes, if it is the encoding of one. */
  function Decode(raw: string): Option<string> {
    DecodeWith(raw, LCode, RCode)
  }

  lemma {:induction false} DecodeBlocksOfBlocks(s: string, t: map<int, string>)
    requires AllDigits(s) && IsTable(t) && Injective(t)
    ensures DecodeBlocks(Blocks(s, t), t) == Some(s)
    decreases |s|
  {
    if s != [] {
      var bits := Blocks(s, t);
      var p := t[Value(s[0])];
      assert bits[..7] == p && bits[7..] == Blocks(s[1..], t);
      LookupComplete(t, Value(s[0]));
      DecodeBlocksOfBlocks(s[1..], t);
      CharOfValue(s[0]);
      assert [s[0]] + s[1..] == s;
    }
  }

  lemma {:induction false} BlocksOfDecodeBlocks(bits: string, t: map<int, string>, s: string)
    requires IsTable(t)
    requires DecodeBlocks(bits, t) == Some(s)
    ensures AllDigits(s) && Blocks(s, t) == bits
    decreases |bits|
  {
    if bits != [] {
      var d := Lookup(t, bits[..7]);
      var rest := DecodeBlocks(bits[7..], t).value;
      assert s == [DigitChar(d)] + rest;
      BlocksOfDecodeBlocks(bits[7..], t, rest);
      assert s[1..] == rest;
      assert bits == bits[..7] + bits[7..];
    }
  }

  lemma SevenTimes(n: nat)
    ensures (7 * n) % 7 == 0 && (7 * n) / 7 == n
  {
  }

  /**
   * A string of `7 * n + 11` bits with the markers and the separator in place decodes as
   * its two halves `x` and `y`.
   */
  lemma DecodeFramed(raw: string, n: nat, x: string, y: string, lt: map<int, string>, rt: map<int, string>)
    requires |raw| == 7 * n + 11
    requires raw[..3] == StartMarker && raw[|raw| - 3..] == EndMarker
    requires raw[SeparatorStart(n)..SeparatorStart(n) + 5] == Separator
    requires raw[3..SeparatorStart(n)] == x && raw[SeparatorStart(n) + 5..|raw| - 3] == y
    ensures DecodeWith(raw, lt, rt) == Join(DecodeBlocks(x, lt), DecodeBlocks(y, rt))
  {
    assert (|raw| - 11) / 7 == n && (|raw| - 11) % 7 == 0 by {
      SevenTimes(n);
    }
  }

  /**
   * Decoding a frame decodes its two halves, when they hold `p` and `q` patterns and the
   * left half is the shorter one by at most one pattern.
   */
  lemma DecodeFrame(left: string, right: string, p: nat, q: nat, lt: map<int, string>, rt: map<int, string>)
    requires |left| == 7 * p && |right| == 7 * q && p == (p + q) / 2
    ensures DecodeWith(Frame(left, right), lt, rt) == Join(DecodeBlocks(left, lt), DecodeBlocks(right, rt))
  {
    var raw := Frame(left, right);
    var sep := SeparatorStart(p + q);
    assert |raw| == 7 * (p + q) + 11 && raw[..3] == StartMarker && raw[|raw| - 3..] == EndMarker
      && raw[sep..sep + 5] == Separator && raw[3..sep] == left && raw[sep + 5..|raw| - 3] == right by {
      FrameSlices(left, right);
      assert sep == 3 + |left|;
    }
    DecodeFramed(raw, p + q, left, right, lt, rt);
  }

  /** Two digit strings split as `Encode` splits them decode from their frame. */
  lemma DecodeHalves(a: string, b: string, lt: map<int, string>, rt: map<int, string>)
    requires AllDigits(a) && AllDigits(b) && IsTable(lt) && IsTable(rt) && Injective(lt) && Injective(rt)
    requires |a| == (|a| + |b|) / 2
    ensures DecodeWith(Frame(Blocks(a, lt), Blocks(b, rt)), lt, rt) == Some(a + b)
  {
    DecodeFrame(Blocks(a, lt), Blocks(b, rt), |a|, |b|, lt, rt);
    DecodeBlocksOfBlocks(a, lt);
    DecodeBlocksOfBlocks(b, rt);
  }

  /** The two halves `Encode` splits a digit string into are digit strings that make it up again. */
  lemma SplitDigits(s: string, h: nat)
    requires AllDigits(s) && h <= |s|
    ensures AllDigits(s[..h]) && AllDigits(s[h..]) && s[..h] + s[h..] == s
  {
  }

  lemma DecodeEncodeWith(s: string, lt: map<int, string>, rt: map<int, string>)
    requires AllDigits(s) && IsTable(lt) && IsTable(rt) && Injective(lt) && Injective(rt)
    ensures DecodeWith(EncodeWith(s, lt, rt), lt, rt) == Some(s)
  {
    var h := |s| / 2;
    SplitDigits(s, h);
    DecodeHalves(s[..h], s[h..], lt, rt);
  }

  /** Encoding a concatenation whose first part is the left half frames the two parts' patterns. */
  lemma EncodeHalves(a: string, b: string, lt: map<int, string>, rt: map<int, string>)
    requires AllDigits(a) && AllDigits(b) && IsTable(lt) && IsTable(rt)
    requires |a| == (|a| + |b|) / 2
    ensures AllDigits(a + b)
    ensures EncodeWith(a + b, lt, rt) == Frame(Blocks(a, lt), Blocks(b, rt))
  {
    var s := a + b;
    assert s[..|s| / 2] == a && s[|s| / 2..] == b;
  }

  lemma SevenDivides(m: int)
    requires m >= 0 && m % 7 == 0
    ensures m == 7 * (m / 7)
  {
  }

  /** What a successful decoding has checked: the length, the markers, the separator and both halves. */
  lemma DecodedParts(raw: string, lt: map<int, string>, rt: map<int, string>)
    requires DecodeWith(raw, lt, rt).Some?
    ensures |raw| >= 11 && |raw| == 7 * ((|raw| - 11) / 7) + 11
    ensures var sep := SeparatorStart((|raw| - 11) / 7);
      && raw[..3] == StartMarker && raw[sep..sep + 5] == Separator && raw[|raw| - 3..] == EndMarker
      && DecodeBlocks(raw[3..sep], lt).Some? && DecodeBlocks(raw[sep + 5..|raw| - 3], rt).Some?
      && DecodeWith(raw, lt, rt).value == DecodeBlocks(raw[3..sep], lt).value + DecodeBlocks(raw[sep + 5..|raw| - 3], rt).value
  {
    SevenDivides(|raw| - 11);
  }

  lemma EncodeDecodeWith(raw: string, s: string, lt: map<int, string>, rt: map<int, string>)
    requires IsTable(lt) && IsTable(rt)
    requires DecodeWith(raw, lt, rt) == Some(s)
    ensures AllDigits(s) && EncodeWith(s, lt, rt) == raw
  {
    DecodedParts(raw, lt, rt);
    var n := (|raw| - 11) / 7;
    var sep := SeparatorStart(n);
    var x, y := raw[3..sep], raw[sep + 5..|raw| - 3];
    var a, b := DecodeBlocks(x, lt).value, DecodeBlocks(y, rt).value;
    BlocksOfDecodeBlocks(x, lt, a);
    BlocksOfDecodeBlocks(y, rt, b);
    assert |a| == n / 2 && |b| == n - n / 2;
    EncodeHalves(a, b, lt, rt);
    FrameOfSlices(raw, sep - 3);
  }

  /** Decoding undoes encoding: the bit string identifies the digits it was made from. */
  lemma DecodeEncode(s: string)
    requires AllDigits(s)
    ensures Decode(Encode(s)) == Some(s)
  {
    TablesWellFormed();
    DecodeEncodeWith(s, LCode, RCode);
  }

  /** Conversely, whatever decodes to `s` is exactly the encoding of `s`. */
  lemma EncodeDecode(raw: string, s: string)
    requires Decode(raw) == Some(s)
    ensures AllDigits(s) && Encode(s) == raw
  {
    TablesWellFormed();
    EncodeDecodeWith(raw, s, LCode, RCode);
  }

  lemma BlocksOfOne(c: char, t: map<int, string>)
    requires IsDigit(c) && IsTable(t)
    ensures Blocks([c], t) == t[Value(c)]
  {
    assert [c][1..] == [];
  }

  lemma BlocksCons(c: char, s: string, t: map<int, string>)
    requires IsDigit(c) && AllDigits(s) && IsTable(t)
    ensures AllDigits([c] + s) && Blocks([c] + s, t) == t[Value(c)] + Blocks(s, t)
  {
    assert ([c] + s)[1..] == s;
  }

  /** Four digits in a table: the concatenation of their four patterns. */
  lemma FourBlocks(w: char, x: char, y: char, z: char, t: map<int, string>)
    requires IsDigit(w) && IsDigit(x) && IsDigit(y) && IsDigit(z) && IsTable(t)
    ensures AllDigits([w, x, y, z])
    ensures Blocks([w, x, y, z], t) == t[Value(w)] + t[Value(x)] + t[Value(y)] + t[Value(z)]
  {
    BlocksOfOne(z, t);
    BlocksCons(y, [z], t);
    assert [y, z] == [y] + [z];
    BlocksCons(x, [y, z], t);
    assert [x, y, z] == [x] + [y, z];
    BlocksCons(w, [x, y, z], t);
    assert [w, x, y, z] == [w] + [x, y, z];
  }

  /** The symbol of eight digits: four patterns of the left table, then four of the right table. */
  lemma EncodeEight(s: string, lt: map<int, string>, rt: map<int, string>)
    requires AllDigits(s) && |s| == 8 && IsTable(lt) && IsTable(rt)
    ensures EncodeWith(s, lt, rt) ==
      Frame(lt[Value(s[0])] + lt[Value(s[1])] + lt[Value(s[2])] + lt[Value(s[3])],
            rt[Value(s[4])] + rt[Value(s[5])] + rt[Value(s[6])] + rt[Value(s[7])])
  {
    FourBlocks(s[0], s[1], s[2], s[3], lt);
    FourBlocks(s[4], s[5], s[6], s[7], rt);
    assert s[..4] == [s[0], s[1], s[2], s[3]] && s[4..] == [s[4], s[5], s[6], s[7]];
  }

  lemma ExampleDigits()
    ensures AllDigits("40063812") && |"40063812"| == 8
    ensures var s := "40063812";
      Value(s[0]) == 4 && Value(s[1]) == 0 && Value(s[2]) == 0 && Value(s[3]) == 6
      && Value(s[4]) == 3 && Value(s[5]) == 8 && Value(s[6]) == 1 && Value(s[7]) == 2
  {
  }

  lemma ExamplePatterns()
    ensures LCode[4] + LCode[0] + LCode[0] + LCode[6] == "0100011" + "0001101" + "0001101" + "0101111"
    ensures RCode[3] + RCode[8] + RCode[1] + RCode[2] == "1000010" + "1001000" + "1100110" + "1101100"
  {
  }

  /** The encoding of the example payload 4006381 with its check digit 2. */
  lemma EncodeExample()
    ensures Encode("40063812") ==
      "101" + ("0100011" + "0001101" + "0001101" + "0101111") + "01010"
      + ("1000010" + "1001000" + "1100110" + "1101100") + "101"
  {
    LeftTableWellFormed();
    RightTableWellFormed();
    ExampleDigits();
    EncodeEight("40063812", LCode, RCode);
    ExamplePatterns();
  }
}
