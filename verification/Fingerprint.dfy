/** Text fingerprints: a simhash over character shingles, and how far a few
    misread characters can move it. */
module Fingerprint {
  import opened Counting
  import opened Domain
  import opened WordRuns

  const SHINGLE := 5
  const MIN_CHARACTERS := 200
  const NEAR_DUPLICATE_DISTANCE := 6
  const OFFSET: bv64 := 0xcbf2_9ce4_8422_2325
  const PRIME: bv64 := 0x0000_0100_0000_01b3

  // ---- the hash of a shingle ------------------------------------------------

  /** A character's code point to base 256, lowest digit first. */
  function CodeBytes(c: char): (digits: (int, int, int, int))
    ensures 0 <= digits.0 < 256 && 0 <= digits.1 < 256 && 0 <= digits.2 < 256 && 0 <= digits.3 < 256
    ensures c as int == digits.0 + 256 * digits.1 + 65_536 * digits.2 + 16_777_216 * digits.3
  {
    var code := c as int;
    (code % 256, code / 256 % 256, code / 65_536 % 256, code / 16_777_216 % 256)
  }

  function Byte(digit: int): bv64
    requires 0 <= digit < 256
  {
    digit as bv64
  }

  /** The four bytes of a character, lowest first. */
  function LittleEndian(c: char): (bytes: seq<bv64>)
    ensures |bytes| == 4
  {
    var digits := CodeBytes(c);
    [Byte(digits.0), Byte(digits.1), Byte(digits.2), Byte(digits.3)]
  }

  /** They are its digits to base 256. */
  lemma BytesAreDigits(c: char) returns (d0: int, d1: int, d2: int, d3: int)
    ensures 0 <= d0 < 256 && 0 <= d1 < 256 && 0 <= d2 < 256 && 0 <= d3 < 256
    ensures c as int == d0 + 256 * d1 + 65_536 * d2 + 16_777_216 * d3
    ensures LittleEndian(c) == [Byte(d0), Byte(d1), Byte(d2), Byte(d3)]
  {
    hide Byte;
    var digits := CodeBytes(c);
    d0, d1, d2, d3 := digits.0, digits.1, digits.2, digits.3;
  }

  function Absorb(hash: bv64, byte: bv64): bv64 {
    (hash ^ byte) * PRIME
  }

  function AbsorbAll(hash: bv64, bytes: seq<bv64>): bv64 {
    if bytes == [] then hash else Absorb(AbsorbAll(hash, bytes[..|bytes| - 1]), bytes[|bytes| - 1])
  }

  function AllBytes(characters: seq<char>): seq<bv64> {
    if characters == [] then []
    else AllBytes(characters[..|characters| - 1]) + LittleEndian(characters[|characters| - 1])
  }

  /** FNV-1a over the bytes of the characters. */
  function Fnv1aOf(characters: seq<char>): bv64 {
    AbsorbAll(OFFSET, AllBytes(characters))
  }

  lemma NothingAbsorbed(characters: seq<char>)
    requires characters == []
    ensures Fnv1aOf(characters) == OFFSET
  {
  }

  lemma OneMoreByte(hash: bv64, bytes: seq<bv64>, byte: bv64)
    ensures AbsorbAll(hash, bytes + [byte]) == Absorb(AbsorbAll(hash, bytes), byte)
  {
    assert (bytes + [byte])[..|bytes|] == bytes;
  }

  lemma BytesGrow(characters: seq<char>, i: nat)
    requires i < |characters|
    ensures AllBytes(characters[..i + 1]) == AllBytes(characters[..i]) + LittleEndian(characters[i])
  {
    assert characters[..i + 1][..i] == characters[..i];
  }

  lemma Absorbs(bytes: seq<bv64>, byte: bv64, before: bv64, after: bv64)
    requires AbsorbAll(OFFSET, bytes) == before && Absorb(before, byte) == after
    ensures AbsorbAll(OFFSET, bytes + [byte]) == after
  {
    hide Absorb;
    OneMoreByte(OFFSET, bytes, byte);
  }

  /** Hashes published with the algorithm: of "a" and of "foobar", as bytes. */
  lemma PublishedHashes()
    ensures AbsorbAll(OFFSET, [0x61]) == 0xaf63_dc4c_8601_ec8c
    ensures AbsorbAll(OFFSET, [0x66, 0x6f, 0x6f, 0x62, 0x61, 0x72]) == 0x8594_4171_f739_67e8
  {
    Absorbs([], 0x61, OFFSET, 0xaf63_dc4c_8601_ec8c);
    assert [] + [0x61 as bv64] == [0x61];
    var word: seq<bv64> := [0x66, 0x6f, 0x6f, 0x62, 0x61, 0x72];
    Absorbs(word[..0], word[0], OFFSET, 0xaf63_db4c_8601_ead9);
    assert word[..0] + [word[0]] == word[..1];
    Absorbs(word[..1], word[1], 0xaf63_db4c_8601_ead9, 0x0898_5907_b541_d342);
    assert word[..1] + [word[1]] == word[..2];
    Absorbs(word[..2], word[2], 0x0898_5907_b541_d342, 0xdcb2_7518_fed9_d577);
    assert word[..2] + [word[2]] == word[..3];
    Absorbs(word[..3], word[3], 0xdcb2_7518_fed9_d577, 0xdd12_0e79_0c25_12af);
    assert word[..3] + [word[3]] == word[..4];
    Absorbs(word[..4], word[4], 0xdd12_0e79_0c25_12af, 0xcac1_65af_a2fe_f40a);
    assert word[..4] + [word[4]] == word[..5];
    Absorbs(word[..5], word[5], 0xcac1_65af_a2fe_f40a, 0x8594_4171_f739_67e8);
    assert word[..5] + [word[5]] == word[..6];
    assert word[..6] == word;
  }

  lemma CharacterBytes()
    ensures LittleEndian('\U{12345}') == [0x45, 0x23, 0x01, 0x00]
  {
    var digits := CodeBytes('\U{12345}');
    assert digits == (0x45, 0x23, 0x01, 0x00);
  }

  /** And of the character U+12345, whose bytes are 45, 23, 01 and 00. */
  lemma CharacterHash()
    ensures Fnv1aOf(['\U{12345}']) == 0x30b4_c76a_ede5_ccd8
  {
    var c := ['\U{12345}'];
    var bytes: seq<bv64> := [0x45, 0x23, 0x01, 0x00];
    CharacterBytes();
    hide LittleEndian;
    assert c[..0] == [];
    assert AllBytes(c) == [] + bytes == bytes;
    Absorbs(bytes[..0], bytes[0], 0xcbf2_9ce4_8422_2325, 0xaf63_f84c_8602_1c20);
    assert bytes[..0] + [bytes[0]] == bytes[..1];
    Absorbs(bytes[..1], bytes[1], 0xaf63_f84c_8602_1c20, 0x08fa_ed07_b595_9919);
    assert bytes[..1] + [bytes[1]] == bytes[..2];
    Absorbs(bytes[..2], bytes[2], 0x08fa_ed07_b595_9919, 0xd7f9_dc19_8d33_23c8);
    assert bytes[..2] + [bytes[2]] == bytes[..3];
    Absorbs(bytes[..3], bytes[3], 0xd7f9_dc19_8d33_23c8, 0x30b4_c76a_ede5_ccd8);
    assert bytes[..3] + [bytes[3]] == bytes;
  }

  method Fnv1a(characters: seq<char>) returns (hash: bv64)
    ensures hash == Fnv1aOf(characters)
  {
    hash := OFFSET;
    hide Absorb, AbsorbAll, AllBytes, LittleEndian, CodeBytes;
    assert Fnv1aOf(characters[..0]) == OFFSET by { NothingAbsorbed(characters[..0]); }
    for i := 0 to |characters|
      invariant hash == Fnv1aOf(characters[..i])
    {
      var bytes := LittleEndian(characters[i]);
      ghost var before := AllBytes(characters[..i]);
      assert before + bytes[..0] == before;
      for j := 0 to 4
        invariant hash == AbsorbAll(OFFSET, before + bytes[..j])
      {
        OneMoreByte(OFFSET, before + bytes[..j], bytes[j]);
        assert before + bytes[..j + 1] == before + bytes[..j] + [bytes[j]];
        hash := Absorb(hash, bytes[j]);
      }
      assert bytes[..4] == bytes;
      BytesGrow(characters, i);
    }
    assert characters[..|characters|] == characters;
  }

  // ---- weights and bits -----------------------------------------------------

  /** One of the 64 bits of a fingerprint. */
  type BitIndex = bv6

  predicate Bit(x: bv64, bit: BitIndex) {
    (x >> bit) & 1 == 1
  }

  function WithBit(x: bv64, bit: BitIndex): bv64 {
    x | (1 << bit)
  }

  lemma SettingABit(x: bv64, chosen: BitIndex, bit: BitIndex)
    ensures Bit(WithBit(x, chosen), bit) <==> Bit(x, bit) || bit == chosen
  {
  }

  lemma NoBitsInZero(bit: BitIndex)
    ensures !Bit(0, bit)
  {
  }

  lemma DifferingBit(x: bv64, y: bv64, bit: BitIndex)
    ensures Bit(x ^ y, bit) <==> Bit(x, bit) != Bit(y, bit)
  {
  }

  /** How the `i`-th shingle votes on a bit. */
  function Vote(text: seq<char>, i: nat, bit: BitIndex): (vote: int)
    requires i + SHINGLE <= |text|
    ensures -1 <= vote <= 1
  {
    if Bit(Fnv1aOf(text[i..i + SHINGLE]), bit) then 1 else -1
  }

  function Weight(text: seq<char>, shingles: nat, bit: BitIndex): int
    requires shingles + SHINGLE <= |text| + 1
  {
    if shingles == 0 then 0 else Weight(text, shingles - 1, bit) + Vote(text, shingles - 1, bit)
  }

  /** The balance of the votes of all shingles of a text. */
  function TotalWeight(text: seq<char>, bit: BitIndex): int
    requires |text| >= SHINGLE - 1
  {
    Weight(text, |text| - (SHINGLE - 1), bit)
  }

  /** `fingerprint` has exactly the bits the shingles vote for. */
  ghost predicate IsFingerprint(fingerprint: bv64, text: seq<char>)
    requires |text| >= SHINGLE - 1
  {
    forall bit: BitIndex :: Bit(fingerprint, bit) <==> TotalWeight(text, bit) > 0
  }

  /** Some five characters of the text in a row, whose hash has the bit or has not. */
  predicate Says(text: seq<char>, bit: BitIndex, i: nat, yes: bool) {
    i + 5 <= |text| && (Bit(Fnv1aOf(text[i..i + 5]), bit) <==> yes)
  }

  lemma {:induction false} VotesAreCounted(text: seq<char>, shingles: nat, bit: BitIndex)
    requires shingles + SHINGLE <= |text| + 1
    ensures Weight(text, shingles, bit)
         == |set i: nat | i < shingles && Says(text, bit, i, true)| - |set i: nat | i < shingles && Says(text, bit, i, false)|
    decreases shingles
  {
    hide Bit, Fnv1aOf;
    var ayes, noes := set i: nat | i < shingles && Says(text, bit, i, true), set i: nat | i < shingles && Says(text, bit, i, false);
    if shingles == 0 {
      assert ayes == {} && noes == {};
    } else {
      var last := shingles - 1;
      VotesAreCounted(text, last, bit);
      var fewerAyes, fewerNoes := set i: nat | i < last && Says(text, bit, i, true), set i: nat | i < last && Says(text, bit, i, false);
      if Says(text, bit, last, true) {
        assert ayes == fewerAyes + {last} && noes == fewerNoes;
      } else {
        assert ayes == fewerAyes && noes == fewerNoes + {last};
      }
    }
  }

  /** A fingerprint has the bits that the hashes of more five-character pieces of the
      text have than have not. */
  lemma MajorityDecides(fingerprint: bv64, text: seq<char>, bit: BitIndex)
    requires |text| >= SHINGLE - 1 && IsFingerprint(fingerprint, text)
    ensures Bit(fingerprint, bit) <==>
      |set i: nat | i < |text| && Says(text, bit, i, true)| > |set i: nat | i < |text| && Says(text, bit, i, false)|
  {
    hide Bit, Fnv1aOf, Weight;
    var m := |text| - (SHINGLE - 1);
    VotesAreCounted(text, m, bit);
    assert (set i: nat | i < |text| && Says(text, bit, i, true)) == set i: nat | i < m && Says(text, bit, i, true);
    assert (set i: nat | i < |text| && Says(text, bit, i, false)) == set i: nat | i < m && Says(text, bit, i, false);
  }

  /** The fingerprint of a normalised text, if it is long enough to have one. */
  method OfNormalised(text: seq<char>) returns (fingerprint: Option<bv64>)
    ensures fingerprint.Some? <==> |text| >= 200
    ensures fingerprint.Some? ==> IsFingerprint(fingerprint.value, text)
  {
    hide Vote, Fnv1aOf, Bit, WithBit;
    if |text| < MIN_CHARACTERS { return None; }
    var weights := new int[64](_ => 0);
    for i := 0 to |text| - (SHINGLE - 1)
      invariant forall b :: 0 <= b < 64 ==> weights[b] == Weight(text, i, b as BitIndex)
    {
      var feature := Fnv1a(text[i..i + SHINGLE]);
      CastVote(weights, text, i, feature);
    }
    var bits := Chosen(weights, text);
    fingerprint := Some(bits);
  }

  /** The bits whose weight is above zero. */
  method Chosen(weights: array<int>, text: seq<char>) returns (bits: bv64)
    requires weights.Length == 64 && |text| >= SHINGLE - 1
    requires forall b :: 0 <= b < 64 ==> weights[b] == TotalWeight(text, b as BitIndex)
    ensures IsFingerprint(bits, text)
  {
    hide TotalWeight, Bit, WithBit;
    bits := 0;
    forall bit: BitIndex ensures !Bit(bits, bit) { NoBitsInZero(bit); }
    for b := 0 to 64
      invariant forall bit: BitIndex :: Bit(bits, bit) <==> bit as int < b && TotalWeight(text, bit) > 0
    {
      if weights[b] > 0 {
        forall bit: BitIndex ensures Bit(WithBit(bits, b as BitIndex), bit) <==> Bit(bits, bit) || bit as int == b {
          SettingABit(bits, b as BitIndex, bit);
        }
        bits := WithBit(bits, b as BitIndex);
      }
    }
  }

  /** Adds one shingle's votes to the weights of the 64 bits. */
  method CastVote(weights: array<int>, text: seq<char>, i: nat, feature: bv64)
    requires weights.Length == 64 && i + SHINGLE <= |text| && feature == Fnv1aOf(text[i..i + SHINGLE])
    modifies weights
    ensures forall b :: 0 <= b < 64 ==> weights[b] == old(weights[b]) + Vote(text, i, b as BitIndex)
  {
    hide Fnv1aOf, Bit;
    for b := 0 to 64
      invariant forall c :: 0 <= c < b ==> weights[c] == old(weights[c]) + Vote(text, i, c as BitIndex)
      invariant forall c :: b <= c < 64 ==> weights[c] == old(weights[c])
    {
      if Bit(feature, b as BitIndex) {
        weights[b] := weights[b] + 1;
      } else {
        weights[b] := weights[b] - 1;
      }
    }
  }

  // ---- misread characters ---------------------------------------------------

  /** In how many of the first `n` places two texts differ. */
  function Misread(a: seq<char>, b: seq<char>, n: nat): (count: nat)
    requires n <= |a| == |b|
    ensures count <= n
  {
    if n == 0 then 0 else Misread(a, b, n - 1) + (if a[n - 1] != b[n - 1] then 1 else 0)
  }

  lemma {:induction false} MisreadGrows(a: seq<char>, b: seq<char>, m: nat, n: nat)
    requires m <= n <= |a| == |b|
    ensures Misread(a, b, m) <= Misread(a, b, n)
    ensures Misread(a, b, m) == Misread(a, b, n) ==> a[m..n] == b[m..n]
    decreases n
  {
    if m < n {
      MisreadGrows(a, b, m, n - 1);
      if Misread(a, b, m) == Misread(a, b, n) {
        assert a[m..n] == a[m..n - 1] + [a[n - 1]];
        assert b[m..n] == b[m..n - 1] + [b[n - 1]];
      }
    }
  }

  /** A shingle votes differently only if it covers a misread character, and
      each character is covered by at most five shingles. */
  lemma {:induction false} WeightsDrift(a: seq<char>, b: seq<char>, m: nat, bit: BitIndex)
    requires |a| == |b| && m + SHINGLE <= |a| + 1
    ensures
      var drift := 2 * (Misread(a, b, m) + Misread(a, b, m + 1) + Misread(a, b, m + 2) + Misread(a, b, m + 3) + Misread(a, b, m + 4));
      -drift <= Weight(a, m, bit) - Weight(b, m, bit) <= drift
    decreases m
  {
    hide Vote;
    if m > 0 {
      WeightsDrift(a, b, m - 1, bit);
      VotesDrift(a, b, m - 1, bit);
    }
  }

  lemma VotesDrift(a: seq<char>, b: seq<char>, i: nat, bit: BitIndex)
    requires |a| == |b| && i + SHINGLE <= |a|
    ensures
      var drift := 2 * (Misread(a, b, i + SHINGLE) - Misread(a, b, i));
      -drift <= Vote(a, i, bit) - Vote(b, i, bit) <= drift
  {
    hide Bit, Fnv1aOf, Misread;
    MisreadGrows(a, b, i, i + SHINGLE);
  }

  /** Misreading `k` characters moves the weight of a bit by at most `10 k`. */
  lemma MisreadingMovesWeights(a: seq<char>, b: seq<char>, bit: BitIndex)
    requires |a| == |b| >= SHINGLE - 1
    ensures
      var k := Misread(a, b, |a|);
      TotalWeight(b, bit) - 10 * k <= TotalWeight(a, bit) <= TotalWeight(b, bit) + 10 * k
  {
    hide Misread, Weight;
    var m := |a| - (SHINGLE - 1);
    WeightsDrift(a, b, m, bit);
    MisreadGrows(a, b, m, |a|);
    MisreadGrows(a, b, m + 1, |a|);
    MisreadGrows(a, b, m + 2, |a|);
    MisreadGrows(a, b, m + 3, |a|);
  }

  // ---- distance -------------------------------------------------------------

  /** How many of the lowest `n` bits are set. */
  function CountOnes(x: bv64, n: nat): (count: nat)
    requires n <= 64
  {
    if n == 0 then 0 else CountOnes(x, n - 1) + (if Bit(x, (n - 1) as BitIndex) then 1 else 0)
  }

  function Hamming(left: bv64, right: bv64): nat {
    CountOnes(left ^ right, 64)
  }

  predicate IsNearDuplicate(left: bv64, right: bv64) {
    Hamming(left, right) <= NEAR_DUPLICATE_DISTANCE
  }

  /** One of two fingerprints has the bit at this place and the other has not. */
  predicate DifferAt(left: bv64, right: bv64, place: nat) {
    place < 64 && Bit(left, place as BitIndex) != Bit(right, place as BitIndex)
  }

  lemma {:induction false} OnesAreDifferences(left: bv64, right: bv64, n: nat)
    requires n <= 64
    ensures CountOnes(left ^ right, n) == |set place: nat | place < n && DifferAt(left, right, place)|
    decreases n
  {
    hide Bit, DifferAt;
    if n == 0 {
      assert (set place: nat | place < n && DifferAt(left, right, place)) == {};
    } else {
      OnesAreDifferences(left, right, n - 1);
      OneMorePlace(left, right, n);
      var fewer := set place: nat | place < n - 1 && DifferAt(left, right, place);
      assert (set place: nat | place < n && DifferAt(left, right, place))
          == if DifferAt(left, right, n - 1) then fewer + {n - 1} else fewer;
    }
  }

  lemma OneMorePlace(left: bv64, right: bv64, n: nat)
    requires 0 < n <= 64
    ensures CountOnes(left ^ right, n)
         == CountOnes(left ^ right, n - 1) + (if DifferAt(left, right, n - 1) then 1 else 0)
  {
    hide Bit;
    DifferingBit(left, right, (n - 1) as BitIndex);
  }

  /** The distance is the number of places, of all 64, in which two fingerprints
      differ; near duplicates differ in six at most. */
  lemma DistanceIsDifferences(left: bv64, right: bv64)
    ensures Hamming(left, right) == |set place: nat | place < 64 && DifferAt(left, right, place)|
    ensures IsNearDuplicate(left, right) <==> |set place: nat | place < 64 && DifferAt(left, right, place)| <= 6
  {
    OnesAreDifferences(left, right, 64);
  }

  /** The weight of this bit is so slight that `k` misread characters could turn it. */
  predicate Slight(text: seq<char>, k: nat, place: nat)
    requires |text| >= SHINGLE - 1
  {
    place < 64 && -10 * k < TotalWeight(text, place as BitIndex) <= 10 * k
  }

  lemma {:induction false} MisreadCounts(a: seq<char>, b: seq<char>, n: nat)
    requires n <= |a| == |b|
    ensures Misread(a, b, n) == |set i: nat | i < n && a[i] != b[i]|
    decreases n
  {
    var misread := set i: nat | i < n && a[i] != b[i];
    if n == 0 {
      assert misread == {};
    } else {
      MisreadCounts(a, b, n - 1);
      var fewer := set i: nat | i < n - 1 && a[i] != b[i];
      assert misread == if a[n - 1] != b[n - 1] then fewer + {n - 1} else fewer;
    }
  }

  lemma OnlySlightBitsTurn(a: seq<char>, b: seq<char>, fa: bv64, fb: bv64, place: nat)
    requires |a| == |b| >= SHINGLE - 1 && DifferAt(fa, fb, place)
    requires IsFingerprint(fa, a) && IsFingerprint(fb, b)
    ensures Slight(a, Misread(a, b, |a|), place)
  {
    hide Bit, TotalWeight, Misread;
    MisreadingMovesWeights(a, b, place as BitIndex);
  }

  /** Two equally long texts that differ in `k` characters: their fingerprints differ
      only in bits of which the first text's weight lies above -10 k and at most at
      10 k. So a misreading stays a near duplicate when six bits or fewer do. */
  lemma MisreadingStaysClose(a: seq<char>, b: seq<char>, fa: bv64, fb: bv64, k: nat)
    requires |a| == |b| >= SHINGLE - 1 && k == |set i: nat | i < |a| && a[i] != b[i]|
    requires IsFingerprint(fa, a) && IsFingerprint(fb, b)
    ensures
      var slight := set place: nat | place < 64 && Slight(a, k, place);
      Hamming(fa, fb) <= |slight| && (|slight| <= 6 ==> IsNearDuplicate(fa, fb))
    ensures forall bit: BitIndex :: Slight(a, k, bit as nat) <==> -10 * k < TotalWeight(a, bit) <= 10 * k
  {
    hide DifferAt, IsFingerprint, Hamming, TotalWeight;
    MisreadCounts(a, b, |a|);
    DistanceIsDifferences(fa, fb);
    var differing := set place: nat | place < 64 && DifferAt(fa, fb, place);
    var slight := set place: nat | place < 64 && Slight(a, k, place);
    forall place: nat | DifferAt(fa, fb, place) ensures Slight(a, k, place) {
      OnlySlightBitsTurn(a, b, fa, fb, place);
    }
    assert differing <= slight;
    SubsetIsNoLarger(differing, slight);
  }

  // ---- normalising ----------------------------------------------------------

  /** Lower-case letters and digits with single spaces between words: any two
      texts with the same words normalise alike, whatever their layout and
      punctuation. */
  method Normalise(text: seq<char>, alphanumeric: char -> bool, lower: char -> seq<char>) returns (output: seq<char>)
    requires forall c :: lower(c) != []
    ensures output == Spaced(Words(text, alphanumeric), lower)
  {
    hide Spaced, Words;
    output := [];
    var pendingSpace := false;
    NothingSpaced(text[..0], alphanumeric, lower);
    for i := 0 to |text|
      invariant output == Spaced(Words(text[..i], alphanumeric), lower)
      invariant pendingSpace <==> i > 0 && !alphanumeric(text[i - 1])
    {
      var c := text[i];
      OneMoreCharacter(text[..i], c, alphanumeric, lower);
      assert text[..i + 1] == text[..i] + [c];
      if alphanumeric(c) {
        if pendingSpace && output != [] { output := output + [' ']; }
        pendingSpace := false;
        output := output + lower(c);
      } else {
        pendingSpace := true;
      }
    }
    assert text[..|text|] == text;
  }

  /** The fingerprint of a text, if its normal form is long enough. */
  method TextFingerprint(text: seq<char>, alphanumeric: char -> bool, lower: char -> seq<char>)
    returns (fingerprint: Option<bv64>)
    requires forall c :: lower(c) != []
    ensures
      var normal := Spaced(Words(text, alphanumeric), lower);
      if |normal| < 200 then fingerprint.None?
      else fingerprint.Some? && IsFingerprint(fingerprint.value, normal)
  {
    var normal := Normalise(text, alphanumeric, lower);
    fingerprint := OfNormalised(normal);
  }
}
