/**
 * Key expansion of AES-128 (FIPS 197, section 5.2): RotWord, SubWord and the
 * round constants, and the 44-word (176-byte) key schedule they produce from
 * a 16-byte key. Words are four-byte sequences, like the byte[4] words of `AES.java`.
 */
module KeySchedule {
  import opened AesErrors
  import opened AesTables

  /** rotate_word: [a0, a1, a2, a3] becomes [a1, a2, a3, a0]. */
  function RotateWord(word: seq<bv8>): (r: seq<bv8>)
    requires |word| >= 4
    ensures |r| == 4
    ensures forall k | 0 <= k < 4 :: r[k] == word[(k + 1) % 4]
  {
    seq(4, k requires 0 <= k < 4 => word[(k + 1) % 4])
  }

  /** Four rotations give back the word. */
  lemma RotateWordFourTimes(word: seq<bv8>)
    requires |word| == 4
    ensures RotateWord(RotateWord(RotateWord(RotateWord(word)))) == word
  {
    var r := RotateWord(RotateWord(RotateWord(RotateWord(word))));
    assert r[0] == word[0] && r[1] == word[1] && r[2] == word[2] && r[3] == word[3];
  }

  /** substitute_word: every byte of the word goes through the S-box. */
  function SubstituteWord(word: seq<bv8>): (r: seq<bv8>)
    requires |word| >= 4
    ensures |r| == 4
    ensures forall k | 0 <= k < 4 :: r[k] == SubByte(word[k])
  {
    seq(4, k requires 0 <= k < 4 => SubByte(word[k]))
  }

  /** Two words with the same substitution are the same word: SubWord loses nothing. */
  lemma SubstituteWordInjective(u: seq<bv8>, v: seq<bv8>)
    requires |u| == 4 && |v| == 4
    requires SubstituteWord(u) == SubstituteWord(v)
    ensures u == v
  {
    forall k | 0 <= k < 4
      ensures u[k] == v[k]
    {
      InvSubByteSubByte(u[k]);
      InvSubByteSubByte(v[k]);
      assert SubstituteWord(u)[k] == SubstituteWord(v)[k];
    }
  }

  /**
   * keyScheduleCore: SubWord(RotWord(input)) with rcon[i] added to the first
   * byte. A word that is not four bytes long is refused with No32BitWord.
   */
  function KeyScheduleCore(input: seq<bv8>, i: int): (r: Result<seq<bv8>>)
    requires 1 <= i <= 10
    ensures r.Failure? <==> |input| != 4
    ensures r.Failure? ==> r.error == No32BitWord
    ensures r.Success? ==> |r.value| == 4 && r.value[0] == SubByte(input[1]) ^ Rcon(i)
    ensures r.Success? ==> r.value[1..] == [SubByte(input[2]), SubByte(input[3]), SubByte(input[0])]
  {
    if |input| != 4 then
      Failure(No32BitWord)
    else
      var w := SubstituteWord(RotateWord(input));
      Success([w[0] ^ Rcon(i), w[1], w[2], w[3]])
  }

  /** Byte-wise XOR of two words. */
  function XorWord(a: seq<bv8>, b: seq<bv8>): (r: seq<bv8>)
    requires |a| == 4 && |b| == 4
    ensures |r| == 4 && forall k | 0 <= k < 4 :: r[k] == a[k] ^ b[k]
  {
    seq(4, k requires 0 <= k < 4 => a[k] ^ b[k])
  }

  /** Word i (bytes 4i .. 4i+3) of a byte sequence. */
  function WordAt(w: seq<bv8>, i: nat): (r: seq<bv8>)
    requires 4 * i + 4 <= |w|
    ensures |r| == 4 && forall k | 0 <= k < 4 :: r[k] == w[4 * i + k]
  {
    w[4 * i .. 4 * i + 4]
  }

  /** The word XORed into word i - 4 to give word i: word i - 1, passed through the core when i is a multiple of 4. */
  function Temp(prev: seq<bv8>, i: nat): (r: seq<bv8>)
    requires |prev| == 4 && 4 <= i < 44
    ensures |r| == 4
  {
    if i % 4 == 0 then KeyScheduleCore(prev, i / 4).value else prev
  }

  /** Word i of the schedule, from the i words before it. */
  function NextWord(p: seq<bv8>, i: nat): (r: seq<bv8>)
    requires |p| == 4 * i && 4 <= i < 44
    ensures |r| == 4
  {
    XorWord(WordAt(p, i - 4), Temp(WordAt(p, i - 1), i))
  }

  /** The first n words of the key schedule, as 4n bytes. */
  function ExpandWords(key: seq<bv8>, n: nat): (r: seq<bv8>)
    requires |key| == 16 && 4 <= n <= 44
    ensures |r| == 4 * n
    decreases n
  {
    if n == 4 then key else
      var p := ExpandWords(key, n - 1);
      p + NextWord(p, n - 1)
  }

  /** One more word of the schedule. */
  lemma ExpandWordsStep(key: seq<bv8>, n: nat)
    requires |key| == 16 && 4 <= n < 44
    ensures ExpandWords(key, n + 1) == ExpandWords(key, n) + NextWord(ExpandWords(key, n), n)
  {
  }

  /** The expanded key: Nb (Nr + 1) = 44 words. */
  function KeyExpansion(key: seq<bv8>): (r: seq<bv8>)
    requires |key| == 16
    ensures |r| == 176
  {
    ExpandWords(key, 44)
  }

  /** The expanded key is the schedule run up to word 44. */
  lemma AllWords(key: seq<bv8>, n: nat)
    requires |key| == 16 && n == 44
    ensures KeyExpansion(key) == ExpandWords(key, n)
  {
  }

  /**
   * The requirements of section 5.2 on an expanded key: 176 bytes, the first
   * 16 of which are the key, and word i, for 4 <= i < 44, is word i - 4 XOR
   * Temp(word i - 1, i).
   */
  predicate IsKeyExpansion(key: seq<bv8>, w: seq<bv8>) {
    |w| == 176 && w[..16] == key &&
    forall i | 4 <= i < 44 :: WordAt(w, i) == XorWord(WordAt(w, i - 4), Temp(WordAt(w, i - 1), i))
  }

  /** Shorter schedules are prefixes of longer ones. */
  lemma {:induction false} ExpandWordsPrefix(key: seq<bv8>, m: nat, n: nat)
    requires |key| == 16 && 4 <= m <= n <= 44
    ensures ExpandWords(key, n)[..4 * m] == ExpandWords(key, m)
    decreases n
  {
    if m < n {
      ExpandWordsPrefix(key, m, n - 1);
      var p := ExpandWords(key, n - 1);
      assert ExpandWords(key, n)[..4 * (n - 1)] == p;
      assert ExpandWords(key, n)[..4 * m] == p[..4 * m];
    }
  }

  /** Word i of a longer schedule is the word the recurrence computes. */
  lemma WordAtExpansion(key: seq<bv8>, i: nat)
    requires |key| == 16 && 4 <= i < 44
    ensures var w := KeyExpansion(key);
      WordAt(w, i) == XorWord(WordAt(w, i - 4), Temp(WordAt(w, i - 1), i))
  {
    hide KeyExpansion, ExpandWords, Temp, XorWord, KeyScheduleCore, SubstituteWord, RotateWord, SubByte, Rcon;
    var w := KeyExpansion(key);
    var p := ExpandWords(key, i);
    AllWords(key, 44);
    ExpandWordsStep(key, i);
    ExpandWordsPrefix(key, i + 1, 44);
    ExpandWordsPrefix(key, i, 44);
    assert w[..4 * i] == p;
    assert WordAt(w, i) == ExpandWords(key, i + 1)[4 * i .. 4 * i + 4];
    assert WordAt(w, i - 4) == WordAt(p, i - 4);
    assert WordAt(w, i - 1) == WordAt(p, i - 1);
  }

  /** Byte j of word i of the expanded key, in the form expandKey computes it. */
  lemma ExpansionByte(key: seq<bv8>, i: nat, j: nat, t: seq<bv8>)
    requires |key| == 16 && 4 <= i < 44 && j < 4
    requires t == Temp(WordAt(KeyExpansion(key), i - 1), i)
    ensures var w := KeyExpansion(key); w[4 * i + j] == w[4 * (i - 4) + j] ^ t[j]
  {
    var w := KeyExpansion(key);
    WordAtExpansion(key, i);
    assert WordAt(w, i)[j] == WordAt(w, i - 4)[j] ^ t[j];
  }

  /** The first four words of the expanded key are the key. */
  lemma KeyExpansionPrefix(key: seq<bv8>)
    requires |key| == 16
    ensures KeyExpansion(key)[..16] == key
  {
    ExpandWordsPrefix(key, 4, 44);
  }

  /** KeyExpansion meets the requirements of section 5.2 ... */
  lemma KeyExpansionCorrect(key: seq<bv8>)
    requires |key| == 16
    ensures IsKeyExpansion(key, KeyExpansion(key))
  {
    ExpandWordsPrefix(key, 4, 44);
    forall i | 4 <= i < 44
      ensures var w := KeyExpansion(key);
        WordAt(w, i) == XorWord(WordAt(w, i - 4), Temp(WordAt(w, i - 1), i))
    {
      WordAtExpansion(key, i);
    }
  }

  /** Word i of a sequence meeting the requirements follows the recurrence. */
  lemma RecurrenceAt(key: seq<bv8>, w: seq<bv8>, i: nat)
    requires IsKeyExpansion(key, w) && 4 <= i < 44
    ensures WordAt(w, i) == XorWord(WordAt(w, i - 4), Temp(WordAt(w, i - 1), i))
  {
  }

  /** A sequence meeting the requirements starts with the first four words of the schedule. */
  lemma UniqueStart(key: seq<bv8>, w: seq<bv8>)
    requires |key| == 16 && IsKeyExpansion(key, w)
    ensures |w| == 176 && w[..16] == ExpandWords(key, 4)
  {
  }

  /** If the first n words agree with the schedule and word n follows the recurrence, so do n + 1 words. */
  lemma UniqueStep(key: seq<bv8>, w: seq<bv8>, n: nat)
    requires |key| == 16 && |w| == 176 && 4 <= n < 44
    requires w[..4 * n] == ExpandWords(key, n)
    requires WordAt(w, n) == XorWord(WordAt(w, n - 4), Temp(WordAt(w, n - 1), n))
    ensures w[..4 * (n + 1)] == ExpandWords(key, n + 1)
  {
    var p := ExpandWords(key, n);
    assert WordAt(w, n - 4) == WordAt(p, n - 4);
    assert WordAt(w, n - 1) == WordAt(p, n - 1);
    assert w[..4 * (n + 1)] == w[..4 * n] + WordAt(w, n);
  }

  /** ... and is the only sequence that does. */
  lemma KeyExpansionUnique(key: seq<bv8>, w: seq<bv8>)
    requires |key| == 16 && IsKeyExpansion(key, w)
    ensures w == KeyExpansion(key)
  {
    hide *;
    UniqueStart(key, w);
    var n := 4;
    while n < 44
      invariant 4 <= n <= 44
      invariant w[..4 * n] == ExpandWords(key, n)
    {
      RecurrenceAt(key, w, n);
      UniqueStep(key, w, n);
      n := n + 1;
    }
    AllWords(key, n);
    assert w == w[..4 * n];
  }
}
