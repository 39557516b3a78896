/** Detection of CJK unified ideographs in a string. */
module HandleChinese {

  /** A character is "Chinese" when it lies in the CJK unified ideograph block U+4E00..U+9FA5. */
  predicate IsChinese(c: char) {
    '\U{4E00}' <= c <= '\U{9FA5}'
  }

  /** Scans the word from the front and stops at the first Chinese character. */
  function ContainChinese(word: string): (found: bool)
    ensures found <==> exists i :: 0 <= i < |word| && IsChinese(word[i])
  {
    if word == [] then false
    else if IsChinese(word[0]) then true
    else
      var rest := ContainChinese(word[1..]);
      assert forall i :: 1 <= i < |word| ==> word[i] == word[1..][i - 1];
      rest
  }

  lemma EmptyHasNoChinese()
    ensures !ContainChinese("")
  {
  }

  /** Containment distributes over concatenation, proved from the scan rather than from its contract. */
  lemma {:induction false} ContainChineseConcat(a: string, b: string)
    ensures ContainChinese(a + b) == (ContainChinese(a) || ContainChinese(b))
  {
    if a == [] {
      assert a + b == b;
    } else {
      assert (a + b)[0] == a[0];
      assert (a + b)[1..] == a[1..] + b;
      if !IsChinese(a[0]) {
        ContainChineseConcat(a[1..], b);
      }
    }
  }
}
