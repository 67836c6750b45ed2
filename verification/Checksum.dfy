/** The IPv4 header checksum of the Ethernet test module: the ones' complement of the ones'
    complement sum of the header's 16-bit words (section 1 of RFC 1071). */
module Checksum {
  type Word = x: nat | x < 0x1_0000

  const ALL_ONES: Word := 0xFFFF

  function Sum(words: seq<Word>): nat {
    if words == [] then 0 else Sum(words[..|words| - 1]) + words[|words| - 1]
  }

  /** It is the sum of the words, however they are grouped. */
  lemma {:induction false} SumLaws(a: seq<Word>, b: seq<Word>, w: Word)
    ensures Sum([]) == 0 && Sum([w]) == w
    ensures Sum(a + b) == Sum(a) + Sum(b)
  {
    if b == [] {
      assert a + b == a;
    } else {
      var last := |b| - 1;
      SumLaws(a, b[..last], w);
      assert (a + b)[..|a + b| - 1] == a + b[..last];
    }
  }

  /** The ones' complement value of a sum: its residue modulo 65535, where a positive sum takes
      65535 rather than 0. */
  function OnesComplementValue(sum: nat): Word {
    if sum == 0 then 0 else (sum - 1) % 0xFFFF + 1
  }

  /** What a header must carry in word k. */
  function Checksum(header: seq<Word>, k: nat): Word
    requires k < |header|
  {
    ALL_ONES - OnesComplementValue(Sum(header[k := 0]))
  }

  /** A receiver accepts a header whose words, checksum included, add up to all ones. */
  predicate Accepted(header: seq<Word>) {
    OnesComplementValue(Sum(header)) == ALL_ONES
  }

  method CalcChecksum(header: seq<Word>, k: nat) returns (check: Word)
    requires k < |header|
    ensures check == Checksum(header, k)
  {
    var words := header[k := 0];
    var tempSum: nat := 0;
    for i := 0 to |words|
      invariant tempSum == Sum(words[..i])
    {
      assert words[..i + 1][..i] == words[..i];
      tempSum := tempSum + words[i];
    }
    assert words[..|words|] == words;
    hide OnesComplementValue, Sum;
    while tempSum / 0x1_0000 != 0
      invariant OnesComplementValue(tempSum) == OnesComplementValue(Sum(words))
      decreases tempSum
    {
      FoldOnce(tempSum);
      tempSum := tempSum / 0x1_0000 + tempSum % 0x1_0000;
    }
    FoldedSum(tempSum);
    return ALL_ONES - tempSum;
  }

  lemma FoldedSum(sum: nat)
    requires sum / 0x1_0000 == 0
    ensures sum < 0x1_0000 && OnesComplementValue(sum) == sum
  {
  }

  /** One fold of the carries keeps the ones' complement value and makes the sum smaller. */
  lemma FoldOnce(sum: nat)
    requires sum / 0x1_0000 != 0
    ensures var folded := sum / 0x1_0000 + sum % 0x1_0000;
            0 < folded < sum && OnesComplementValue(folded) == OnesComplementValue(sum)
  {
    var folded := sum / 0x1_0000 + sum % 0x1_0000;
    assert sum - 1 == folded - 1 + 0xFFFF * (sum / 0x1_0000);
  }

  lemma {:induction false} SumUpdate(words: seq<Word>, k: nat, c: Word)
    requires k < |words|
    ensures Sum(words[k := c]) == Sum(words[k := 0]) + c
  {
    var last := |words| - 1;
    if k == last {
      assert words[k := c][..last] == words[k := 0][..last];
    } else {
      SumUpdate(words[..last], k, c);
      assert words[k := c][..last] == words[..last][k := c];
      assert words[k := 0][..last] == words[..last][k := 0];
    }
  }

  /** A receiver accepts the header with c in its checksum word exactly when c is the computed
      checksum, or c is the other zero of ones' complement arithmetic. */
  lemma AcceptedIffChecksum(header: seq<Word>, k: nat, c: Word)
    requires k < |header|
    ensures Accepted(header[k := c]) <==>
            c == Checksum(header, k) || (c == ALL_ONES && Checksum(header, k) == 0)
  {
    SumUpdate(header, k, c);
  }
}
