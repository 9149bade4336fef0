// Ed25519 verification keys as did:key identifiers.
module DidKey {
  import opened Base58
  import opened Radix
  import opened Wrappers

  datatype KeyError = InvalidLength | InvalidCharacters

  // `$` also matches before one trailing line feed, and decoding strips it.
  function Chomp(key: string): string {
    if key != [] && key[|key| - 1] == '\n' then key[..|key| - 1] else key
  }

  predicate MatchesPattern(key: string) {
    Chomp(key) != [] && IsBase58(Chomp(key))
  }

  function Fingerprint(key: Bytes): string {
    Encode(Multicodec(key))
  }

  // The key behind the ed25519-pub prefix.
  function Multicodec(key: Bytes): Bytes {
    [0xED, 0x01] + key
  }

  function ToDidKey(key: string): Result<string, KeyError> {
    if |key| != 43 && |key| != 44 then Err(InvalidLength)
    else if !MatchesPattern(key) then Err(InvalidCharacters)
    else
      EncodeDecode(Chomp(key));
      Ok("did:key:z" + Fingerprint(Decode(Chomp(key)).value))
  }

  // A key is refused for its length unless it has 43 or 44 characters, and otherwise for its characters
  // unless they are base58 digits, but for one trailing line feed.
  lemma RefusedExactly(key: string)
    ensures |key| !in {43, 44} <==> ToDidKey(key) == Err(InvalidLength)
    ensures |key| in {43, 44} ==>
              (ToDidKey(key).Ok? <==> IsBase58(key) || (key[|key| - 1] == '\n' && IsBase58(key[..|key| - 1])))
    ensures |key| in {43, 44} && ToDidKey(key).Err? ==> ToDidKey(key) == Err(InvalidCharacters)
  {
    if key != [] && key[|key| - 1] == '\n' {
      assert !IsDigit(key[|key| - 1]);
    }
  }

  // Decoding the fingerprint gives the prefix and the key.
  lemma FingerprintHoldsKey(key: string)
    requires ToDidKey(key).Ok?
    ensures "did:key:z" <= ToDidKey(key).value
    ensures Decode(Chomp(key)).Some?
    ensures Decode(ToDidKey(key).value[9..]) == Some([0xED, 0x01] + Decode(Chomp(key)).value)
  {
    EncodeDecode(Chomp(key));
    DecodeEncode(Multicodec(Decode(Chomp(key)).value));
  }

  // Two accepted keys have one did:key exactly if they differ at most in a trailing line feed.
  lemma DidKeyIsInjective(key: string, other: string)
    requires ToDidKey(key).Ok? && ToDidKey(other).Ok?
    ensures ToDidKey(key).value == ToDidKey(other).value <==> Chomp(key) == Chomp(other)
  {
    EncodeDecode(Chomp(key));
    EncodeDecode(Chomp(other));
    FingerprintHoldsKey(key);
    FingerprintHoldsKey(other);
    if ToDidKey(key).value == ToDidKey(other).value {
      var k, o := Decode(Chomp(key)).value, Decode(Chomp(other)).value;
      assert ([0xED, 0x01] + k)[2..] == k && ([0xED, 0x01] + o)[2..] == o;
    }
  }

  // A key of 43 characters and the same key with a line feed are both accepted and share their did:key.
  lemma LineFeedIsIgnored(key: string)
    requires |key| == 43 && IsBase58(key)
    ensures ToDidKey(key).Ok? && ToDidKey(key + "\n") == ToDidKey(key) && key + "\n" != key
  {
    assert Chomp(key + "\n") == key;
  }

  // So the conversion is injective on the accepted keys made only of base58 characters.
  lemma InjectiveOnBase58(key: string, other: string)
    requires |key| in {43, 44} && |other| in {43, 44} && IsBase58(key) && IsBase58(other)
    ensures ToDidKey(key).Ok? && ToDidKey(other).Ok?
    ensures ToDidKey(key).value == ToDidKey(other).value <==> key == other
  {
    DidKeyIsInjective(key, other);
  }

  // ---- Sizes ----

  lemma {:induction false} PowAdds(b: Base, e: nat, f: nat)
    ensures Pow(b, e + f) == Pow(b, e) * Pow(b, f)
  {
    if e > 0 {
      PowAdds(b, e - 1, f);
      TimesOut(b, Pow(b, e - 1), Pow(b, f));
    }
  }

  lemma TimesOut(b: Base, x: nat, y: nat)
    ensures b.Times(x) * y == b.Times(x * y)
  {
  }

  lemma Powers()
    ensures Pow(B58, 44) == 389790918707373377135528568990913592653094657612049369038476873218241589149696
    ensures Pow(B58, 42) == 115871260020027757769182095419415455604368209753879122781949129969750769664
    ensures Pow(B256, 32) == 115792089237316195423570985008687907853269984665640564039457584007913129639936
    ensures Pow(B256, 31) == 452312848583266388373324160190187140051835877600158453279131187530910662656
  {
    assert Pow(B58, 2) == 3364;
    assert Pow(B58, 4) == 11316496;
    assert Pow(B58, 5) == 656356768;
    PowAdds(B58, 5, 5);
    PowAdds(B58, 10, 10);
    assert Pow(B58, 20) == 185592264682226060569122324245118976;
    PowAdds(B58, 20, 20);
    assert Pow(B58, 40) == 34444488709877454747081479018851205589883534409595458615323760395288576;
    PowAdds(B58, 2, 40);
    PowAdds(B58, 4, 40);
    assert Pow(B256, 2) == 65536;
    assert Pow(B256, 4) == 4294967296;
    PowAdds(B256, 4, 4);
    PowAdds(B256, 8, 8);
    assert Pow(B256, 16) == 340282366920938463463374607431768211456;
    PowAdds(B256, 16, 16);
    assert Pow(B256, 32) == 256 * Pow(B256, 31);
  }

  lemma {:induction false} PrefixedRange(key: seq<nat>)
    requires DigitsOf(B256, key)
    ensures 0xED01 * Pow(B256, |key|) <= Value(B256, [0xED, 0x01] + key) < 0xED02 * Pow(B256, |key|)
  {
    var all := [0xED, 0x01] + key;
    if key == [] {
      assert all[..1] == [0xED] && [0xED][..0] == [];
      assert Value(B256, [0xED]) == 0xED;
    } else {
      assert all[..|all| - 1] == [0xED, 0x01] + key[..|key| - 1];
      PrefixedRange(key[..|key| - 1]);
    }
  }

  // 18023 is 5 * 58 * 58 + 20 * 58 + 43, the numeral "6Mk".
  lemma {:induction false} ShiftedTo6Mk(n: nat, m: nat)
    requires 18023 * Pow(B58, m) <= n < 18024 * Pow(B58, m)
    ensures Shift(B58, n, m) == 18023
    decreases m
  {
    if m > 0 {
      ShiftedTo6Mk(B58.Div(n), m - 1);
    }
  }

  lemma Numeral6Mk()
    ensures Digits(B58, 18023) == [5, 20, 43]
  {
    assert Digits(B58, 5) == [5];
    assert Digits(B58, 310) == [5] + [20];
  }

  lemma TopThreeDigits(n: nat, m: nat)
    requires 18023 * Pow(B58, m) <= n < 18024 * Pow(B58, m) && Pow(B58, m) <= n
    ensures var ds := Digits(B58, n); |ds| == m + 3 && ds[0] == 5 && ds[1] == 20 && ds[2] == 43
  {
    ShiftedTo6Mk(n, m);
    DigitsPrefix(B58, n, m);
    Numeral6Mk();
    var ds := Digits(B58, n);
    assert ds[0] == ds[..3][0] && ds[1] == ds[..3][1] && ds[2] == ds[..3][2];
  }

  lemma PrefixedNumber(key: Bytes)
    requires |key| == 32
    ensures var n := Value(B256, Multicodec(key));
            && 18023 * Pow(B58, 44) <= n < 18024 * Pow(B58, 44)
            && Pow(B58, 44) <= n
  {
    Powers();
    PrefixedRange(key);
  }

  // The fingerprint of every 32-byte key has 47 characters and begins with 6Mk.
  lemma FingerprintShape(key: Bytes)
    requires |key| == 32
    ensures |Fingerprint(key)| == 47 && "6Mk" <= Fingerprint(key)
  {
    PrefixedNumber(key);
    Begins6Mk(key, Value(B256, Multicodec(key)), 44);
  }

  lemma Begins6Mk(key: Bytes, n: nat, m: nat)
    requires n == Value(B256, Multicodec(key))
    requires 18023 * Pow(B58, m) <= n < 18024 * Pow(B58, m) && Pow(B58, m) <= n
    ensures |Fingerprint(key)| == m + 3 && "6Mk" <= Fingerprint(key)
  {
    FingerprintDigits(key);
    TopThreeDigits(n, m);
    var s := Fingerprint(key);
    assert s[0] == '6' && s[1] == 'M' && s[2] == 'k';
  }

  lemma FingerprintDigits(key: Bytes)
    ensures var ds := Digits(B58, Value(B256, Multicodec(key)));
            DigitsOf(B58, ds) && Fingerprint(key) == ToChars(ds)
  {
    ConvertBack(B256, B58, Multicodec(key));
    assert Zeros(0) + Digits(B58, Value(B256, Multicodec(key))) == Digits(B58, Value(B256, Multicodec(key)));
  }

  lemma {:induction false} Fits(z: nat)
    requires z <= 32
    ensures Pow(B256, 32 - z) <= Pow(B58, 44 - z)
  {
    if z == 0 {
      Powers();
    } else {
      Fits(z - 1);
    }
  }

  lemma BelowPastZeros(z: nat, rest: seq<nat>)
    requires DigitsOf(B256, rest)
    ensures Value(B256, Zeros(z) + rest) < Pow(B256, |rest|)
  {
    ZerosAddNothing(B256, z, rest);
    ValueBounded(B256, rest);
  }

  lemma ValueBelow(key: Bytes)
    ensures Value(B256, key) < Pow(B256, |key| - LeadingZeros(key))
  {
    SplitZeros(key);
    BelowPastZeros(LeadingZeros(key), key[LeadingZeros(key)..]);
  }

  lemma AcceptedByLength(s: string)
    requires IsBase58(s)
    ensures ToDidKey(s).Ok? <==> |s| == 43 || |s| == 44
  {
  }

  lemma EncodedSize(key: Bytes, z: nat, top: nat, low: nat)
    requires z == LeadingZeros(key) && Value(B256, key) < Pow(B58, top)
    ensures |Encode(key)| <= z + top
    ensures |Encode(key)| > z + low <==> Pow(B58, low) <= Value(B256, key)
  {
    EncodedLength(key);
    MoreDigits(B58, Value(B256, key), top);
    MoreDigits(B58, Value(B256, key), low);
  }

  lemma BelowTop(key: Bytes, z: nat, top: nat)
    requires |key| == 32 && z == LeadingZeros(key) && top == 44 - z
    ensures Value(B256, key) < Pow(B58, top)
  {
    ValueBelow(key);
    Fits(z);
  }

  // A 32-byte key never encodes to more than 44 characters, and the length check accepts its encoding
  // exactly if the key is at least 58 to the power of 42 less its leading zero bytes.
  lemma LengthCheckAccepts(key: Bytes, low: nat)
    requires |key| == 32 && low == 42 - LeadingZeros(key)
    ensures |Encode(key)| <= 44
    ensures ToDidKey(Encode(key)).Ok? <==> Pow(B58, low) <= Value(B256, key)
  {
    var z := LeadingZeros(key);
    BelowTop(key, z, low + 2);
    EncodedSize(key, z, low + 2, low);
    AcceptedByLength(Encode(key));
  }

  // So it accepts every 32-byte key that does not begin with a zero byte.
  lemma LeadingByteIsEnough(key: Bytes)
    requires |key| == 32 && key[0] != 0
    ensures |Encode(key)| == 43 || |Encode(key)| == 44
    ensures ToDidKey(Encode(key)).Ok?
  {
    LengthCheckAccepts(key, 42);
    ValuePositive(B256, key);
    Powers();
    AcceptedByLength(Encode(key));
  }

  // The all-zero key is a 32-byte key that the length check rejects.
  lemma ZeroKeyIsRejected()
    ensures ToDidKey(Encode(Zeros(32))) == Err(InvalidLength)
  {
    var key := Zeros(32);
    ZerosLead(32, []);
    assert key + [] == key;
    ZerosAddNothing(B256, 32, []);
    EncodedLength(key);
  }
}
