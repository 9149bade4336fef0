// Base58 as in sections 3 and 4 of draft-msporny-base58: big-number base conversion in which every
// leading zero byte becomes a leading '1'.
module Base58 {
  import opened Radix
  import opened Wrappers

  type Bytes = s: seq<nat> | DigitsOf(B256, s) witness []

  // The alphabet in digit order: 1-9, A-Z without I and O, a-z without l.
  predicate IsDigit(c: char) {
    || '1' <= c <= '9'
    || ('A' <= c <= 'Z' && c != 'I' && c != 'O')
    || ('a' <= c <= 'z' && c != 'l')
  }

  function ToChar(d: nat): (c: char)
    requires d < 58
    ensures IsDigit(c)
  {
    if d < 9 then '1' + d as char
    else if d < 17 then 'A' + (d - 9) as char
    else if d < 22 then 'J' + (d - 17) as char
    else if d < 33 then 'P' + (d - 22) as char
    else if d < 44 then 'a' + (d - 33) as char
    else 'm' + (d - 44) as char
  }

  function OfChar(c: char): (d: nat)
    requires IsDigit(c)
    ensures d < 58
  {
    if c <= '9' then (c - '1') as nat
    else if c < 'I' then (c - 'A') as nat + 9
    else if c < 'O' then (c - 'J') as nat + 17
    else if c <= 'Z' then (c - 'P') as nat + 22
    else if c < 'l' then (c - 'a') as nat + 33
    else (c - 'm') as nat + 44
  }

  // The alphabet: the figures and letters without those that look alike.
  lemma Alphabet(c: char)
    ensures IsDigit(c) <==>
            ('0' <= c <= '9' || 'A' <= c <= 'Z' || 'a' <= c <= 'z') && c != '0' && c != 'O' && c != 'I' && c != 'l'
  {
  }

  // The 58 digits are the characters of the alphabet in ASCII order.
  lemma InAsciiOrder(d: nat, e: nat)
    requires d < e < 58
    ensures ToChar(d) < ToChar(e)
  {
  }

  lemma DigitsBack(d: nat)
    requires d < 58
    ensures OfChar(ToChar(d)) == d
  {
  }

  lemma CharsBack(c: char)
    requires IsDigit(c)
    ensures ToChar(OfChar(c)) == c
  {
  }

  predicate IsBase58(s: string) {
    forall i | 0 <= i < |s| :: IsDigit(s[i])
  }

  function ToChars(ds: seq<nat>): (s: string)
    requires DigitsOf(B58, ds)
    ensures IsBase58(s)
  {
    seq(|ds|, i requires 0 <= i < |ds| => ToChar(ds[i]))
  }

  function OfChars(s: string): (ds: seq<nat>)
    requires IsBase58(s)
    ensures DigitsOf(B58, ds)
  {
    seq(|s|, i requires 0 <= i < |s| => OfChar(s[i]))
  }

  function Encode(bytes: Bytes): (s: string)
    ensures IsBase58(s)
  {
    ConvertBack(B256, B58, bytes);
    ToChars(Convert(B256, B58, bytes))
  }

  function Decode(s: string): Option<Bytes> {
    if IsBase58(s) then
      ConvertBack(B58, B256, OfChars(s));
      Some(Convert(B58, B256, OfChars(s)))
    else None
  }

  lemma CharsRoundTrip(ds: seq<nat>, s: string)
    ensures DigitsOf(B58, ds) ==> OfChars(ToChars(ds)) == ds
    ensures IsBase58(s) ==> ToChars(OfChars(s)) == s
  {
    if DigitsOf(B58, ds) {
      forall i | 0 <= i < |ds| ensures OfChars(ToChars(ds))[i] == ds[i] {
        DigitsBack(ds[i]);
      }
    }
    if IsBase58(s) {
      forall i | 0 <= i < |s| ensures ToChars(OfChars(s))[i] == s[i] {
        CharsBack(s[i]);
      }
    }
  }

  // Encoding and decoding are inverse bijections between byte strings and base58 strings.
  lemma DecodeEncode(bytes: Bytes)
    ensures Decode(Encode(bytes)) == Some(bytes)
  {
    ConvertBack(B256, B58, bytes);
    CharsRoundTrip(Convert(B256, B58, bytes), "");
  }

  lemma EncodeDecode(s: string)
    ensures Decode(s).Some? <==> IsBase58(s)
    ensures Decode(s).Some? ==> Encode(Decode(s).value) == s
  {
    if IsBase58(s) {
      ConvertBack(B58, B256, OfChars(s));
      CharsRoundTrip([], s);
    }
  }

  lemma EncodedLength(bytes: Bytes)
    ensures |Encode(bytes)| == LeadingZeros(bytes) + |Digits(B58, Value(B256, bytes))|
  {
    ConvertBack(B256, B58, bytes);
  }
}
