/** `String.prototype.trim`, by which the chat decides whether a text is blank. */
module Trimming {
  /** The white space and line ends of ECMAScript. */
  predicate IsSpace(c: char) {
    var u := c as int;
    9 <= u <= 13 || u == 32 || u == 160 || u == 0x1680 || 0x2000 <= u <= 0x200A || u == 0x2028 || u == 0x2029
    || u == 0x202F || u == 0x205F || u == 0x3000 || u == 0xFEFF
  }

  function Trim(s: string): string {
    if s != "" && IsSpace(s[0]) then Trim(s[1..])
    else if s != "" && IsSpace(s[|s| - 1]) then Trim(s[..|s| - 1])
    else s
  }

  predicate IsBlank(s: string) {
    forall k | 0 <= k < |s| :: IsSpace(s[k])
  }

  /** `s[i..j]` is what is left of `s` without the space before and after it. */
  ghost predicate IsCore(s: string, i: int, j: int) {
    && 0 <= i <= j <= |s| && (i < j ==> !IsSpace(s[i]) && !IsSpace(s[j - 1]))
    && (forall k | 0 <= k < i :: IsSpace(s[k])) && (forall k | j <= k < |s| :: IsSpace(s[k]))
  }

  ghost predicate IsTrimmed(t: string, s: string) {
    exists i, j :: IsCore(s, i, j) && s[i..j] == t
  }

  lemma {:induction false} CoreOf(s: string) returns (i: nat, j: nat)
    ensures IsCore(s, i, j) && s[i..j] == Trim(s)
  {
    if s != "" && IsSpace(s[0]) {
      var rest := s[1..];
      i, j := CoreOf(rest);
      assert s == [s[0]] + rest;
      assert s[i + 1..j + 1] == rest[i..j];
      i, j := i + 1, j + 1;
    } else if s != "" && IsSpace(s[|s| - 1]) {
      var rest := s[..|s| - 1];
      i, j := CoreOf(rest);
      assert s == rest + [s[|s| - 1]];
      assert s[i..j] == rest[i..j];
    } else {
      i, j := 0, |s|;
    }
  }

  /** Trimming drops exactly the space around a text; nothing is left exactly of a blank one. */
  lemma TrimIsExact(t: string, s: string)
    ensures IsTrimmed(t, s) <==> t == Trim(s)
    ensures Trim(s) == "" <==> IsBlank(s)
  {
    var k, l := CoreOf(s);
    if k == l {
      assert forall n | 0 <= n < |s| :: IsSpace(s[n]);
    }
    if IsTrimmed(t, s) {
      var i, j :| IsCore(s, i, j) && s[i..j] == t;
      assert i == j <==> k == l;
      assert i < j ==> i == k && j == l;
    }
  }
}
