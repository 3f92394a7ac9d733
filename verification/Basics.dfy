/** What several models share. */
module Basics {

  datatype Option<+T> = None | Some(value: T)

  type Byte = x: int | 0 <= x < 256

  lemma Associate<T>(a: seq<T>, b: seq<T>, c: seq<T>)
    ensures (a + b) + c == a + (b + c)
  {
  }

  lemma Regroup<T>(a: seq<T>, b: seq<T>, c: seq<T>, d: seq<T>)
    ensures a + (b + (c + d)) == a + (b + c) + d
  {
  }

  // ----- letter case and white space -----

  function Lower(c: char): char {
    if 'A' <= c <= 'Z' then c - 'A' + 'a' else c
  }

  /** StringComparison.OrdinalIgnoreCase against a lower-case ASCII word. */
  predicate SameWord(s: string, word: string) {
    |s| == |word| && forall i :: 0 <= i < |s| ==> Lower(s[i]) == word[i]
  }

  /** Each letter is that of a lower-case word or its capital, which is 32 below it; other characters are the word's. */
  predicate AnyCase(s: string, word: string) {
    |s| == |word| && forall i :: 0 <= i < |s| ==>
      s[i] == word[i] || ('a' <= word[i] <= 'z' && s[i] as int + 32 == word[i] as int)
  }

  predicate NoCapitals(word: string) {
    forall i :: 0 <= i < |word| ==> !('A' <= word[i] <= 'Z')
  }

  lemma SameWordIff(s: string, word: string)
    requires NoCapitals(word)
    ensures SameWord(s, word) <==> AnyCase(s, word)
  {
    forall i | 0 <= i < |s| && |s| == |word|
      ensures Lower(s[i]) == word[i] <==>
              s[i] == word[i] || ('a' <= word[i] <= 'z' && s[i] as int + 32 == word[i] as int)
    {
      assert !('A' <= word[i] <= 'Z');
      assert ('A' as int) == 65 && ('Z' as int) == 90 && ('a' as int) == 97 && ('z' as int) == 122;
    }
  }

  /** Char.IsWhiteSpace, which is what String.Trim removes. */
  predicate IsWhite(c: char) {
    var n := c as int;
    || 0x09 <= n <= 0x0D || n == 0x20 || n == 0x85 || n == 0xA0 || n == 0x1680
    || 0x2000 <= n <= 0x200A || n == 0x2028 || n == 0x2029 || n == 0x202F || n == 0x205F || n == 0x3000
  }

  function TrimStart(s: string): string {
    if s != "" && IsWhite(s[0]) then TrimStart(s[1..]) else s
  }

  function TrimEnd(s: string): string {
    if s != "" && IsWhite(s[|s| - 1]) then TrimEnd(s[..|s| - 1]) else s
  }

  function Trim(s: string): string {
    TrimEnd(TrimStart(s))
  }
}
