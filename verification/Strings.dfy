/** Cutting text at a character. */
module Strings {
  function Index(s: string, c: char): nat
    ensures Index(s, c) <= |s| && c !in s[..Index(s, c)] && (Index(s, c) < |s| ==> s[Index(s, c)] == c)
  {
    if s == "" || s[0] == c then 0
    else
      assert s[..1 + Index(s[1..], c)] == [s[0]] + s[1..][..Index(s[1..], c)];
      1 + Index(s[1..], c)
  }

  function Split(s: string, c: char): seq<string>
    ensures Split(s, c) != []
    decreases |s|
  {
    var i := Index(s, c);
    if i == |s| then [s] else [s[..i]] + Split(s[i + 1..], c)
  }

  lemma Associate<T>(a: seq<T>, b: seq<T>, c: seq<T>)
    ensures (a + b) + c == a + (b + c)
  {
  }
}
