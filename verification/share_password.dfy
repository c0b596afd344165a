/** The share-password generator (utils/sharePassword.ts). `Math.random` is an
    input: one draw in [0, 1) per character. */
module SharePassword {

  /** 32 characters: the capital letters and digits without the ambiguous 0, O, 1 and I. */
  const Alphabet: string := "ABCDEFGHJKLMNPQRSTUVWXYZ23456789"

  const Length: nat := 8

  predicate IsDraw(r: real) {
    0.0 <= r < 1.0
  }

  /** `CHARS[Math.floor(r * CHARS.length)]`: the index is always within the alphabet. */
  function Pick(r: real): char
    requires IsDraw(r)
  {
    var idx := (r * |Alphabet| as real).Floor;
    assert 0 <= idx < |Alphabet| by { FloorIndexInBounds(r, |Alphabet|); }
    Alphabet[idx]
  }

  /** The draws are split into 32 equal bands: a draw in band `k` picks character `k`. */
  lemma PickBand(r: real, k: int)
    requires IsDraw(r) && 0 <= k < |Alphabet|
    requires k as real <= r * |Alphabet| as real < (k + 1) as real
    ensures Pick(r) == Alphabet[k]
  {
    assert (r * |Alphabet| as real).Floor == k;
  }

  lemma PickInAlphabet(r: real)
    requires IsDraw(r)
    ensures Pick(r) in Alphabet
  {
  }

  /** `floor(r * n)` lies in [0, n) for every draw `r`. */
  lemma FloorIndexInBounds(r: real, n: nat)
    requires IsDraw(r) && n > 0
    ensures 0 <= (r * n as real).Floor < n
  {
    var x := r * n as real;
    assert 0.0 <= x < n as real by {
      assert r * n as real < 1.0 * n as real;
    }
  }

  /** One character per draw, in order. */
  function PickAll(draws: seq<real>): (s: string)
    requires forall i :: 0 <= i < |draws| ==> IsDraw(draws[i])
    ensures |s| == |draws|
  {
    if draws == [] then [] else [Pick(draws[0])] + PickAll(draws[1..])
  }

  /** Character `i` is picked by draw `i`. */
  lemma {:induction false} PickAllAt(draws: seq<real>, i: nat)
    requires forall i :: 0 <= i < |draws| ==> IsDraw(draws[i])
    requires i < |draws|
    ensures PickAll(draws)[i] == Pick(draws[i])
  {
    if i > 0 {
      PickAllAt(draws[1..], i - 1);
    }
  }

  /** `generateSharePassword`, fed with the draws it consumes (the first `Length`). */
  function GenerateSharePassword(draws: seq<real>): (pw: string)
    requires |draws| >= Length
    requires forall i :: 0 <= i < |draws| ==> IsDraw(draws[i])
    ensures |pw| == Length
    ensures forall i :: 0 <= i < |pw| ==> pw[i] in Alphabet && pw[i] != '0' && pw[i] != 'O' && pw[i] != '1' && pw[i] != 'I'
  {
    var pw := PickAll(draws[..Length]);
    forall i | 0 <= i < |pw| ensures pw[i] in Alphabet {
      PickAllAt(draws[..Length], i);
      PickInAlphabet(draws[i]);
    }
    AlphabetIsUnambiguous();
    pw
  }

  /** Digits sort after every other character: the order in which the alphabet is written. */
  function Rank(c: char): int {
    if '0' <= c <= '9' then c as int + 0x11_0000 else c as int
  }

  /** Each character ranks strictly below the next one, from index `i` on. */
  predicate RisingFrom(s: string, i: nat)
    decreases |s| - i
  {
    i + 1 >= |s| || (Rank(s[i]) < Rank(s[i + 1]) && RisingFrom(s, i + 1))
  }

  lemma {:induction false} RisingRanks(s: string, i: nat, j: nat)
    requires RisingFrom(s, i) && i <= j < |s|
    ensures forall k :: j < k < |s| ==> Rank(s[j]) < Rank(s[k])
    decreases |s| - i
  {
    if i < j {
      RisingRanks(s, i + 1, j);
    } else if j + 1 < |s| {
      RisingRanks(s, i + 1, j + 1);
    }
  }

  lemma AlphabetRises()
    ensures RisingFrom(Alphabet, 0)
  {
    // The rank rises along the written alphabet; checked two positions at a time.
    assert RisingFrom(Alphabet, 30);
    assert RisingFrom(Alphabet, 28);
    assert RisingFrom(Alphabet, 26);
    assert RisingFrom(Alphabet, 24);
    assert RisingFrom(Alphabet, 22);
    assert RisingFrom(Alphabet, 20);
    assert RisingFrom(Alphabet, 18);
    assert RisingFrom(Alphabet, 16);
    assert RisingFrom(Alphabet, 14);
    assert RisingFrom(Alphabet, 12);
    assert RisingFrom(Alphabet, 10);
    assert RisingFrom(Alphabet, 8);
    assert RisingFrom(Alphabet, 6);
    assert RisingFrom(Alphabet, 4);
    assert RisingFrom(Alphabet, 2);
    assert RisingFrom(Alphabet, 0);
  }

  /** A character whose rank falls strictly between two neighbours of a rising
      string is not in it. */
  lemma {:induction false} SkippedBetween(s: string, c: char, j: nat)
    requires RisingFrom(s, 0) && j + 1 < |s|
    requires Rank(s[j]) < Rank(c) < Rank(s[j + 1])
    ensures c !in s
  {
    forall x | 0 <= x < |s| ensures s[x] != c {
      if x < j {
        RisingRanks(s, 0, x);
      } else if x > j + 1 {
        RisingRanks(s, 0, j + 1);
      }
    }
  }

  /** The neighbours of the four skipped characters. */
  lemma AlphabetGaps()
    ensures Alphabet[7] == 'H' && Alphabet[8] == 'J'
    ensures Alphabet[12] == 'N' && Alphabet[13] == 'P'
    ensures Alphabet[23] == 'Z' && Alphabet[24] == '2'
    ensures Alphabet[0] == 'A' && Alphabet[31] == '9'
  {
  }

  /** Every character is a capital letter or a digit from 2 to 9. */
  lemma AlphabetShape()
    ensures forall c :: c in Alphabet ==> 'A' <= c <= 'Z' || '2' <= c <= '9'
  {
    forall x | 0 <= x < |Alphabet| ensures 'A' <= Alphabet[x] <= 'Z' || '2' <= Alphabet[x] <= '9' {
      if x < 24 {
        LetterAt(x);
      } else {
        DigitAt(x);
      }
    }
  }

  /** The first 24 characters lie between 'A' and 'Z'. */
  lemma LetterAt(x: nat)
    requires x < 24
    ensures 'A' <= Alphabet[x] <= 'Z'
  {
    AlphabetRises();
    AlphabetGaps();
    if 0 < x {
      RisingRanks(Alphabet, 0, 0);
    }
    if x < 23 {
      RisingRanks(Alphabet, 0, x);
    }
  }

  /** The last 8 characters lie between '2' and '9'. */
  lemma DigitAt(x: nat)
    requires 24 <= x < 32
    ensures '2' <= Alphabet[x] <= '9'
  {
    AlphabetRises();
    AlphabetGaps();
    if x < 31 {
      RisingRanks(Alphabet, 0, x);
    }
    if 24 < x {
      RisingRanks(Alphabet, 0, 24);
    }
  }

  /** The alphabet has 32 pairwise distinct characters, none of them 0, O, 1 or I. */
  lemma AlphabetIsUnambiguous()
    ensures |Alphabet| == 32
    ensures forall i, j :: 0 <= i < j < |Alphabet| ==> Alphabet[i] != Alphabet[j]
    ensures '0' !in Alphabet && 'O' !in Alphabet && '1' !in Alphabet && 'I' !in Alphabet
  {
    AlphabetRises();
    forall i | 0 <= i < |Alphabet| ensures forall k :: i < k < |Alphabet| ==> Alphabet[i] != Alphabet[k] {
      RisingRanks(Alphabet, 0, i);
    }
    AlphabetGaps();
    SkippedBetween(Alphabet, 'I', 7);
    SkippedBetween(Alphabet, 'O', 12);
    SkippedBetween(Alphabet, '0', 23);
    SkippedBetween(Alphabet, '1', 23);
  }
}
