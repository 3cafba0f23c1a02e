/** Texts joined by a colon, and letter case. */
module Texts {

  predicate NoColon(s: string) {
    forall i | 0 <= i < |s| :: s[i] != ':'
  }

  function Joined(a: string, b: string): string {
    a + ":" + b
  }

  lemma ColonAt(a: string, b: string)
    ensures |Joined(a, b)| == |a| + 1 + |b| && Joined(a, b)[|a|] == ':'
    ensures NoColon(a) ==> forall k | 0 <= k < |a| :: Joined(a, b)[k] != ':'
  {
    assert forall k | 0 <= k < |a| :: Joined(a, b)[k] == a[k];
  }

  /** If the first parts have no colon, a joined text can be taken apart again. */
  lemma JoinedApart(a: string, b: string, c: string, d: string)
    requires NoColon(a) && NoColon(c) && Joined(a, b) == Joined(c, d)
    ensures a == c && b == d
  {
    ColonAt(a, b);
    ColonAt(c, d);
    var x := Joined(a, b);
    assert |a| == |c|;
    assert a == x[..|a|] && c == x[..|c|] && b == x[|a| + 1..] && d == x[|c| + 1..];
  }

  function LowerChar(c: char): char {
    if 'A' <= c <= 'Z' then (c as int + 32) as char else c
  }

  function Lower(s: string): string {
    seq(|s|, i requires 0 <= i < |s| => LowerChar(s[i]))
  }

  predicate IsHex(c: char) {
    '0' <= c <= '9' || 'a' <= c <= 'f' || 'A' <= c <= 'F'
  }

  predicate HexFrom(s: string, n: nat) {
    |s| >= 2 && s[0] == '0' && s[1] == 'x' && forall i | n <= i < |s| :: IsHex(s[i])
  }

  /** A 32-byte hash in hex, in any case. */
  predicate IsHash(s: string) {
    |s| == 66 && HexFrom(s, 2)
  }

  lemma LowerNoColon(s: string)
    requires NoColon(s)
    ensures NoColon(Lower(s))
  {
    forall i | 0 <= i < |Lower(s)| ensures Lower(s)[i] != ':' {
      assert s[i] != ':' && Lower(s)[i] == LowerChar(s[i]);
    }
  }
}
