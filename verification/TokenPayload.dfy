// JWT payload segments: base64url without padding, section 2 and appendix C of RFC 7515, decoded by the
// lenient standard decoder of section 4 of RFC 4648.
module TokenPayload {
  import opened Wrappers

  predicate AreBytes(s: seq<nat>) {
    forall i | 0 <= i < |s| :: s[i] < 256
  }

  type Bytes = s: seq<nat> | AreBytes(s) witness []

  // ---- Encoding ----

  function Sextets(b: Bytes): (ds: seq<nat>)
    ensures forall i | 0 <= i < |ds| :: ds[i] < 64
  {
    if |b| == 0 then []
    else if |b| == 1 then [b[0] / 4, b[0] % 4 * 16]
    else if |b| == 2 then [b[0] / 4, b[0] % 4 * 16 + b[1] / 16, b[1] % 16 * 4]
    else Quad(b[0], b[1], b[2]) + Sextets(b[3..])
  }

  function Quad(x: nat, y: nat, z: nat): (q: seq<nat>)
    requires x < 256 && y < 256 && z < 256
    ensures |q| == 4 && q[0] < 64 && q[1] < 64 && q[2] < 64 && q[3] < 64
  {
    [x / 4, x % 4 * 16 + y / 16, y % 16 * 4 + z / 64, z % 64]
  }

  function LowChar(d: nat): char
    requires d < 62
  {
    if d < 26 then 'A' + d as char else if d < 52 then 'a' + (d - 26) as char else '0' + (d - 52) as char
  }

  function StdChar(d: nat): char
    requires d < 64
  {
    if d < 62 then LowChar(d) else if d == 62 then '+' else '/'
  }

  function UrlChar(d: nat): char
    requires d < 64
  {
    if d < 62 then LowChar(d) else if d == 62 then '-' else '_'
  }

  predicate AreSextets(ds: seq<nat>) {
    forall i | 0 <= i < |ds| :: ds[i] < 64
  }

  function StdChars(ds: seq<nat>): string
    requires AreSextets(ds)
  {
    seq(|ds|, i requires 0 <= i < |ds| => StdChar(ds[i]))
  }

  function UrlChars(ds: seq<nat>): string
    requires AreSextets(ds)
  {
    seq(|ds|, i requires 0 <= i < |ds| => UrlChar(ds[i]))
  }

  // A JWT segment.
  function EncodeUrl(b: Bytes): string { UrlChars(Sextets(b)) }

  // ---- The two paddings ----

  function Equals(n: nat): string { seq(n, _ => '=') }

  // app/util/string.py
  function Pad(s: string): string {
    var n := 4 - |s| % 4;
    if n > 2 then s else s + Equals(n)
  }

  // get_wallet_id_from_b64encoded_jwt
  function PadJwt(s: string): string {
    if |s| % 4 != 0 then s + Equals(4 - |s| % 4) else s
  }

  // ---- Decoding: characters outside the alphabet are skipped, padding may end the data ----

  function StdValue(c: char): (v: Option<nat>)
    ensures v.Some? ==> v.value < 64
  {
    if 'A' <= c <= 'Z' then Some((c - 'A') as nat)
    else if 'a' <= c <= 'z' then Some((c - 'a') as nat + 26)
    else if '0' <= c <= '9' then Some((c - '0') as nat + 52)
    else if c == '+' then Some(62)
    else if c == '/' then Some(63)
    else None
  }

  // `quad` is the position within a group of four, `left` the bits carried over.
  datatype Decoder = Decoder(quad: nat, left: nat, pads: nat, out: seq<nat>, done: bool)

  const START := Decoder(0, 0, 0, [], false)

  function Take(d: Decoder, v: nat): Decoder
    requires v < 64
  {
    match d.quad
    case 0 => Decoder(1, v, 0, d.out, false)
    case 1 => Decoder(2, v % 16, 0, d.out + [d.left * 4 + v / 16], false)
    case 2 => Decoder(3, v % 4, 0, d.out + [d.left * 16 + v / 4], false)
    case _ => Decoder(0, 0, 0, d.out + [d.left * 64 + v], false)
  }

  function Feed(d: Decoder, c: char): Decoder {
    if d.done then d
    else if c == '=' then
      if d.quad < 2 then d
      else if d.quad + d.pads + 1 >= 4 then d.(pads := d.pads + 1, done := true)
      else d.(pads := d.pads + 1)
    else if StdValue(c).Some? then Take(d, StdValue(c).value)
    else d
  }

  function FeedAll(d: Decoder, s: string): Decoder
    decreases |s|
  {
    if s == "" then d else FeedAll(Feed(d, s[0]), s[1..])
  }

  // `None` for incorrect padding.
  function DecodeFrom(d: Decoder, s: string): Option<seq<nat>> {
    var r := FeedAll(d, s);
    if r.done || r.quad == 0 then Some(r.out) else None
  }

  // base64.b64decode
  function StdDecode(s: string): Option<seq<nat>> {
    DecodeFrom(START, s)
  }

  function ToStd(c: char): char {
    if c == '-' then '+' else if c == '_' then '/' else c
  }

  // base64.urlsafe_b64decode
  function UrlDecode(s: string): Option<seq<nat>> {
    StdDecode(seq(|s|, i requires 0 <= i < |s| => ToStd(s[i])))
  }

  // ---- Proofs ----

  lemma {:induction false} FeedConcat(d: Decoder, s: string, t: string)
    ensures FeedAll(d, s + t) == FeedAll(FeedAll(d, s), t)
    decreases |s|
  {
    if s == "" {
      assert s + t == t;
    } else {
      assert (s + t)[1..] == s[1..] + t;
      FeedConcat(Feed(d, s[0]), s[1..], t);
    }
  }

  lemma StdValueOfChar(d: nat)
    requires d < 64
    ensures StdValue(StdChar(d)) == Some(d) && StdChar(d) != '='
    ensures StdValue(UrlChar(d)) == (if d < 62 then Some(d) else None) && UrlChar(d) != '='
  {
  }

  // What the decoder does with the sextets behind the characters.
  function TakeAll(d: Decoder, ds: seq<nat>): Decoder
    requires AreSextets(ds)
    decreases |ds|
  {
    if ds == [] then d else TakeAll(Take(d, ds[0]), ds[1..])
  }

  lemma {:induction false} FeedIsTake(d: Decoder, ds: seq<nat>)
    requires AreSextets(ds) && !d.done
    ensures FeedAll(d, StdChars(ds)) == TakeAll(d, ds)
    decreases |ds|
  {
    if ds != [] {
      StdValueOfChar(ds[0]);
      assert StdChars(ds)[1..] == StdChars(ds[1..]);
      FeedIsTake(Take(d, ds[0]), ds[1..]);
    }
  }

  // Between two groups of four.
  predicate Ready(d: Decoder) {
    d.quad == 0 && d.pads == 0 && !d.done
  }

  lemma TakeStep(d: Decoder, v: nat, rest: seq<nat>)
    requires v < 64 && AreSextets(rest)
    ensures TakeAll(d, [v] + rest) == TakeAll(Take(d, v), rest)
  {
    assert ([v] + rest)[1..] == rest;
  }

  lemma TakeGroup(d: Decoder, x: nat, y: nat, z: nat, rest: seq<nat>)
    requires Ready(d) && x < 256 && y < 256 && z < 256 && AreSextets(rest)
    ensures TakeAll(d, Quad(x, y, z) + rest) == TakeAll(Decoder(0, 0, 0, d.out + [x, y, z], false), rest)
  {
    var q := Quad(x, y, z);
    var d1 := Take(d, q[0]);
    var d2 := Take(d1, q[1]);
    var d3 := Take(d2, q[2]);
    TakeStep(d, q[0], [q[1]] + ([q[2]] + ([q[3]] + rest)));
    TakeStep(d1, q[1], [q[2]] + ([q[3]] + rest));
    TakeStep(d2, q[2], [q[3]] + rest);
    TakeStep(d3, q[3], rest);
    assert q + rest == [q[0]] + ([q[1]] + ([q[2]] + ([q[3]] + rest)));
    GroupBytes(d, x, y, z);
  }

  lemma GroupBytes(d: Decoder, x: nat, y: nat, z: nat)
    requires Ready(d) && x < 256 && y < 256 && z < 256
    ensures var q := Quad(x, y, z);
            Take(Take(Take(Take(d, q[0]), q[1]), q[2]), q[3]) == Decoder(0, 0, 0, d.out + [x, y, z], false)
  {
    var q := Quad(x, y, z);
    var d2 := Take(Take(d, q[0]), q[1]);
    var d3 := Take(d2, q[2]);
    assert d2.out == d.out + [x];
    assert d3.out == d2.out + [y];
    assert Take(d3, q[3]).out == d3.out + [z];
    assert d.out + [x] + [y] + [z] == d.out + [x, y, z];
  }

  lemma TakeOneByte(d: Decoder, x: nat)
    requires Ready(d) && x < 256
    ensures TakeAll(d, [x / 4, x % 4 * 16]) == Decoder(2, 0, 0, d.out + [x], false)
  {
    var u, v := x / 4, x % 4 * 16;
    var d1 := Take(d, u);
    TakeStep(d, u, [v]);
    TakeStep(d1, v, []);
    assert [u, v] == [u] + [v] && [v] == [v] + [];
    assert d1.left * 4 + v / 16 == x;
  }

  lemma TakeTwoBytes(d: Decoder, x: nat, y: nat)
    requires Ready(d) && x < 256 && y < 256
    ensures TakeAll(d, [x / 4, x % 4 * 16 + y / 16, y % 16 * 4]) == Decoder(3, 0, 0, d.out + [x, y], false)
  {
    var u, v, w := x / 4, x % 4 * 16 + y / 16, y % 16 * 4;
    var d1 := Take(d, u);
    var d2 := Take(d1, v);
    TakeStep(d, u, [v] + [w]);
    TakeStep(d1, v, [w]);
    TakeStep(d2, w, []);
    assert [u, v, w] == [u] + ([v] + [w]) && [w] == [w] + [];
    assert d1.left * 4 + v / 16 == x && d2.left * 16 + w / 4 == y;
    assert d.out + [x] + [y] == d.out + [x, y];
  }

  lemma TakeLast(d: Decoder, b: Bytes)
    requires Ready(d) && |b| < 3
    ensures var r := TakeAll(d, Sextets(b)); r.out == d.out + b && r.quad == |Sextets(b)| % 4 && r.pads == 0 && !r.done
  {
    if |b| == 1 {
      TakeOneByte(d, b[0]);
      assert b == [b[0]];
    } else if |b| == 2 {
      TakeTwoBytes(d, b[0], b[1]);
      assert b == [b[0], b[1]];
    }
  }

  lemma FourMore(n: nat)
    ensures (n + 4) % 4 == n % 4
  {
  }

  lemma TakeFirstGroup(d: Decoder, b: Bytes, rest: Bytes)
    requires Ready(d) && |b| >= 3 && rest == b[3..]
    ensures TakeAll(d, Sextets(b)) == TakeAll(Decoder(0, 0, 0, d.out + [b[0], b[1], b[2]], false), Sextets(rest))
    ensures |Sextets(b)| == |Sextets(rest)| + 4
  {
    assert Sextets(b) == Quad(b[0], b[1], b[2]) + Sextets(rest);
    TakeGroup(d, b[0], b[1], b[2], Sextets(rest));
  }

  // Taking the sextets of a payload produces its bytes.
  lemma {:induction false} TakeSextets(d: Decoder, b: Bytes)
    requires Ready(d)
    ensures var r := TakeAll(d, Sextets(b)); r.out == d.out + b && r.quad == |Sextets(b)| % 4 && r.pads == 0 && !r.done
    decreases |b|
  {
    if |b| < 3 {
      TakeLast(d, b);
    } else {
      var rest: Bytes := b[3..];
      var d' := Decoder(0, 0, 0, d.out + [b[0], b[1], b[2]], false);
      TakeFirstGroup(d, b, rest);
      TakeSextets(d', rest);
      assert d'.out + rest == d.out + b;
      FourMore(|Sextets(rest)|);
    }
  }

  lemma {:induction false} SextetCount(b: Bytes)
    ensures |Sextets(b)| == |b| / 3 * 4 + (if |b| % 3 == 0 then 0 else |b| % 3 + 1)
    decreases |b|
  {
    if |b| >= 3 {
      SextetCount(b[3..]);
    }
  }

  // Padding up to the next multiple of four ends the data and adds no bytes.
  lemma Padded(d: Decoder, n: nat)
    requires d.quad in {0, 2, 3} && d.pads == 0 && !d.done && n == Missing(d.quad)
    ensures var r := FeedAll(d, Equals(n)); r.out == d.out && (r.done || r.quad == 0)
  {
    var s := Equals(n);
    if n > 0 {
      assert FeedAll(d, s) == FeedAll(Feed(d, '='), s[1..]);
      if n == 2 {
        assert FeedAll(Feed(d, '='), s[1..]) == FeedAll(Feed(Feed(d, '='), '='), s[1..][1..]);
      }
    }
  }

  // The data part and its padding, from a decoder between two groups.
  lemma FeedPadded(d: Decoder, s: string, n: nat, out: seq<nat>)
    requires var r := FeedAll(d, s); r.out == out && r.quad in {0, 2, 3} && r.pads == 0 && !r.done && n == Missing(r.quad)
    ensures var r := FeedAll(d, s + Equals(n)); r.out == out && (r.done || r.quad == 0)
  {
    FeedConcat(d, s, Equals(n));
    Padded(FeedAll(d, s), n);
  }

  function Missing(len: nat): (n: nat)
    ensures n < 4 && (len + n) % 4 == 0
  {
    if len % 4 == 0 then 0 else 4 - len % 4
  }

  lemma MissingOfRemainder(len: nat)
    ensures Missing(len) == Missing(len % 4)
  {
  }

  lemma {:induction false} SextetRemainder(b: Bytes)
    ensures |Sextets(b)| % 4 in {0, 2, 3}
    decreases |b|
  {
    if |b| >= 3 {
      SextetRemainder(b[3..]);
      FourMore(|Sextets(b[3..])|);
    }
  }

  lemma PadJwtForm(s: string)
    ensures PadJwt(s) == s + Equals(Missing(|s|))
  {
  }

  lemma FedPayload(d: Decoder, b: Bytes, s: string)
    requires Ready(d) && d.out == [] && s == StdChars(Sextets(b))
    ensures var r := FeedAll(d, s);
            r.out == b && r.quad in {0, 2, 3} && r.pads == 0 && !r.done && Missing(|s|) == Missing(r.quad)
  {
    SextetRemainder(b);
    MissingOfRemainder(|s|);
    FeedIsTake(d, Sextets(b));
    TakeSextets(d, b);
    assert d.out + b == b;
  }

  lemma DecodePadded(d: Decoder, b: Bytes, s: string)
    requires Ready(d) && d.out == [] && s == StdChars(Sextets(b))
    ensures DecodeFrom(d, PadJwt(s)) == Some(b)
  {
    FedPayload(d, b, s);
    FeedPadded(d, s, Missing(|s|), b);
    PadJwtForm(s);
  }

  lemma DecodeStd(b: Bytes)
    ensures StdDecode(PadJwt(StdChars(Sextets(b)))) == Some(b)
  {
    DecodePadded(START, b, StdChars(Sextets(b)));
  }

  // The two paddings agree exactly on lengths other than 1 modulo 4, which no encoding has.
  lemma PaddingsAgree(s: string, b: Bytes)
    ensures Pad(s) == PadJwt(s) <==> |s| % 4 != 1
    ensures Pad(EncodeUrl(b)) == PadJwt(EncodeUrl(b)) && |PadJwt(EncodeUrl(b))| % 4 == 0
  {
    PaddedAlike(s);
    PaddedAlike(EncodeUrl(b));
    SextetRemainder(b);
  }

  lemma PaddedAlike(s: string)
    ensures Pad(s) == PadJwt(s) <==> |s| % 4 != 1
    ensures |PadJwt(s)| % 4 == 0
  {
    assert |s| % 4 == 1 ==> |PadJwt(s)| != |Pad(s)|;
  }

  lemma TranslatedChars(ds: seq<nat>, n: nat)
    requires AreSextets(ds)
    ensures var s := UrlChars(ds) + Equals(n);
            seq(|s|, i requires 0 <= i < |s| => ToStd(s[i])) == StdChars(ds) + Equals(n)
  {
  }

  // The URL-safe decoder undoes every encoding.
  lemma UrlRoundTrip(b: Bytes)
    ensures UrlDecode(Pad(EncodeUrl(b))) == Some(b)
  {
    PaddingsAgree("", b);
    var ds := Sextets(b);
    SextetCount(b);
    var n := Missing(|ds|);
    PadJwtForm(UrlChars(ds));
    PadJwtForm(StdChars(ds));
    TranslatedChars(ds, n);
    DecodeStd(b);
  }

  // The two alphabets agree on the letters and figures, in this order, and differ in the last two digits.
  lemma AlphabetOrder(d: nat)
    requires d < 64
    ensures d < 26 ==> StdChar(d) == 'A' + d as char
    ensures 26 <= d < 52 ==> StdChar(d) == 'a' + (d - 26) as char
    ensures 52 <= d < 62 ==> StdChar(d) == '0' + (d - 52) as char
    ensures StdChar(62) == '+' && StdChar(63) == '/' && UrlChar(62) == '-' && UrlChar(63) == '_'
    ensures d < 62 ==> UrlChar(d) == StdChar(d)
  {
  }

  // Test vectors of section 10 of RFC 4648, without their padding.
  lemma TestVectors()
    ensures EncodeUrl([102]) == "Zg"
    ensures EncodeUrl([102, 111]) == "Zm8"
    ensures EncodeUrl([102, 111, 111]) == "Zm9v"
  {
  }

  // ---- The standard decoder on URL-safe text ----

  predicate Low(ds: seq<nat>) {
    forall i | 0 <= i < |ds| :: ds[i] < 62
  }

  // The sextets that have the same character in both alphabets.
  function LowOnly(ds: seq<nat>): (low: seq<nat>)
    ensures Low(low)
  {
    if ds == [] then [] else (if ds[0] < 62 then [ds[0]] else []) + LowOnly(ds[1..])
  }

  lemma {:induction false} LowOnlyShrinks(ds: seq<nat>)
    ensures |LowOnly(ds)| <= |ds|
    ensures |LowOnly(ds)| == |ds| ==> Low(ds)
  {
    if ds != [] {
      LowOnlyShrinks(ds[1..]);
      assert forall i | 1 <= i < |ds| :: ds[i] == ds[1..][i - 1];
    }
  }

  // The standard decoder skips the others.
  lemma {:induction false} FeedUrl(d: Decoder, ds: seq<nat>)
    requires AreSextets(ds) && !d.done
    ensures FeedAll(d, UrlChars(ds)) == TakeAll(d, LowOnly(ds))
    decreases |ds|
  {
    if ds != [] {
      StdValueOfChar(ds[0]);
      assert UrlChars(ds)[1..] == UrlChars(ds[1..]);
      FeedUrl(Feed(d, UrlChars(ds)[0]), ds[1..]);
      if ds[0] < 62 {
        TakeStep(d, ds[0], LowOnly(ds[1..]));
      } else {
        assert [] + LowOnly(ds[1..]) == LowOnly(ds[1..]);
      }
    }
  }

  // The state after `k` accepted characters.
  ghost predicate After(d: Decoder, k: nat) {
    && d.quad == k % 4 && d.pads == 0 && !d.done
    && |d.out| == k / 4 * 3 + (if k % 4 == 0 then 0 else k % 4 - 1)
  }

  lemma {:induction false} TakeCounts(d: Decoder, ds: seq<nat>, k: nat)
    requires AreSextets(ds) && After(d, k)
    ensures After(TakeAll(d, ds), k + |ds|)
    decreases |ds|
  {
    if ds != [] {
      TakeCounts(Take(d, ds[0]), ds[1..], k + 1);
    }
  }

  lemma {:induction false} EqualsAddNothing(d: Decoder, n: nat)
    ensures FeedAll(d, Equals(n)).out == d.out
    decreases n
  {
    if n > 0 {
      assert Equals(n)[1..] == Equals(n - 1);
      EqualsAddNothing(Feed(d, '='), n - 1);
    }
  }

  lemma DecodesLess(d: Decoder, b: Bytes, ds: seq<nat>)
    requires Ready(d) && d.out == [] && ds == Sextets(b) && !Low(ds)
    ensures DecodeFrom(d, PadJwt(UrlChars(ds))) != Some(b)
  {
    LowOnlyShrinks(ds);
    SextetCount(b);
    FeedUrl(d, ds);
    TakeCounts(d, LowOnly(ds), 0);
    var n := Missing(|ds|);
    PadJwtForm(UrlChars(ds));
    FeedConcat(d, UrlChars(ds), Equals(n));
    EqualsAddNothing(FeedAll(d, UrlChars(ds)), n);
  }

  // The decoder of the token payload gives back what was encoded.
  predicate ReadsBack(b: Bytes) {
    StdDecode(PadJwt(EncodeUrl(b))) == Some(b)
  }

  // The standard decoder gives back the payload of a URL-safe segment exactly if no sextet is 62 or 63;
  // otherwise it skips characters and loses data or fails.
  lemma StdDecodesExactly(b: Bytes)
    ensures ReadsBack(b) <==> Low(Sextets(b))
  {
    var ds := Sextets(b);
    if Low(ds) {
      assert UrlChars(ds) == StdChars(ds);
      DecodeStd(b);
    } else {
      DecodesLess(START, b, ds);
    }
  }

  predicate Ascii(b: Bytes) {
    forall i | 0 <= i < |b| :: b[i] < 128
  }

  // `>`, `?`, `~` and DEL.
  predicate Troublesome(x: nat) { x in {62, 63, 126, 127} }

  // No group of three bytes ends with one of them.
  predicate Safe(b: Bytes)
    decreases |b|
  {
    |b| < 3 || (!Troublesome(b[2]) && Safe(b[3..]))
  }

  lemma {:induction false} SafeIfClean(b: Bytes)
    requires forall i | 0 <= i < |b| :: !Troublesome(b[i])
    ensures Safe(b)
    decreases |b|
  {
    if |b| >= 3 {
      SafeIfClean(b[3..]);
    }
  }

  lemma LowConcat(x: seq<nat>, y: seq<nat>)
    ensures Low(x + y) <==> Low(x) && Low(y)
  {
    if Low(x + y) {
      forall i | 0 <= i < |x| ensures x[i] < 62 { assert (x + y)[i] == x[i]; }
      forall i | 0 <= i < |y| ensures y[i] < 62 { assert (x + y)[|x| + i] == y[i]; }
    }
  }

  lemma AsciiQuad(x: nat, y: nat, z: nat)
    requires x < 128 && y < 128 && z < 128
    ensures Low(Quad(x, y, z)) <==> !Troublesome(z)
  {
    var q := Quad(x, y, z);
    assert q[0] < 62 && q[1] < 62 && q[2] < 62;
    assert Low(q) <==> q[3] < 62;
  }

  lemma LowBits(x: nat, y: nat)
    requires x < 128 && y < 128
    ensures x / 4 < 62 && x % 4 * 16 < 62 && x % 4 * 16 + y / 16 < 62 && y % 16 * 4 < 62
  {
  }

  lemma LowList(u: nat, v: nat, w: nat)
    requires u < 62 && v < 62 && w < 62
    ensures Low([u, v]) && Low([u, v, w])
  {
  }

  lemma AsciiLast(b: Bytes)
    requires Ascii(b) && |b| < 3
    ensures Low(Sextets(b)) && Safe(b)
  {
    if |b| == 1 {
      var x := b[0];
      LowBits(x, 0);
      LowList(x / 4, x % 4 * 16, 0);
    } else if |b| == 2 {
      var x, y := b[0], b[1];
      LowBits(x, y);
      LowList(x / 4, x % 4 * 16 + y / 16, y % 16 * 4);
    }
  }

  lemma {:induction false} AsciiSextets(b: Bytes)
    requires Ascii(b)
    ensures Low(Sextets(b)) <==> Safe(b)
    decreases |b|
  {
    if |b| < 3 {
      AsciiLast(b);
    } else {
      var t: Bytes := b[3..];
      AsciiSextets(t);
      AsciiQuad(b[0], b[1], b[2]);
      LowConcat(Quad(b[0], b[1], b[2]), Sextets(t));
    }
  }

  // For an ASCII payload the wallet id is read from exactly the payload's bytes if and only if none of
  // `>`, `?`, `~` and DEL stands at the end of a group of three.
  lemma AsciiPayloadExactly(b: Bytes)
    requires Ascii(b)
    ensures ReadsBack(b) <==> Safe(b)
  {
    AsciiSextets(b);
    StdDecodesExactly(b);
  }

  // In particular every ASCII payload that holds none of them is read back.
  lemma CleanPayloadReadsBack(b: Bytes)
    requires Ascii(b)
    requires forall i | 0 <= i < |b| :: !Troublesome(b[i])
    ensures ReadsBack(b)
  {
    SafeIfClean(b);
    AsciiPayloadExactly(b);
  }

  // The payload `ab?` is lost.
  lemma QuestionMarkIsLost()
    ensures !ReadsBack([97, 98, 63])
  {
    var b: Bytes := [97, 98, 63];
    assert Troublesome(b[2]);
    AsciiPayloadExactly(b);
  }
}
