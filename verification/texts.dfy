/** Digits and case folding of ASCII text. */
module Texts {
  import opened Sequences

  predicate IsDigit(c: char) { '0' <= c <= '9' }

  function LowerChar(c: char): char { if 'A' <= c <= 'Z' then (c as int + 32) as char else c }

  function Lower(s: string): (r: string)
    ensures |r| == |s|
  {
    if s == "" then "" else Lower(s[..|s| - 1]) + [LowerChar(s[|s| - 1])]
  }

  function LowerEach(parts: seq<string>): (r: seq<string>)
    ensures |r| == |parts|
  {
    seq(|parts|, i requires 0 <= i < |parts| => Lower(parts[i]))
  }

  lemma LowerSnoc(a: string, x: char)
    ensures Lower(a + [x]) == Lower(a) + [LowerChar(x)]
  {
    Unsnoc(a, x);
  }

  lemma LowerCharTwice(x: char)
    ensures LowerChar(LowerChar(x)) == LowerChar(x)
  {}

  lemma {:induction false} LowerTwice(s: string)
    ensures Lower(Lower(s)) == Lower(s)
  {
    hide LowerChar;
    if s != "" {
      var front, x := s[..|s| - 1], s[|s| - 1];
      LowerTwice(front);
      Snoc(s);
      LowerSnoc(front, x);
      LowerSnoc(Lower(front), LowerChar(x));
      LowerCharTwice(x);
    }
  }

  lemma {:induction false} LowerAt(s: string, i: nat)
    requires i < |s|
    ensures Lower(s)[i] == LowerChar(s[i])
  {
    if i < |s| - 1 { LowerAt(s[..|s| - 1], i); }
  }

  lemma LowerSlice(s: string, i: nat, j: nat)
    requires i <= j <= |s|
    ensures Lower(s)[i..j] == Lower(s[i..j])
  {
    hide LowerChar, Lower;
    forall k | 0 <= k < j - i ensures Lower(s)[i..j][k] == Lower(s[i..j])[k] {
      LowerAt(s, i + k);
      LowerAt(s[i..j], k);
    }
  }
}
