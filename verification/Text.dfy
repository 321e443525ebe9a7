/** str.strip(), and str.lower() as far as it can yield ASCII letters. */
module Text {

  /** The characters that str.isspace() accepts. */
  predicate IsSpace(c: char) {
    var n := c as int;
    || 0x09 <= n <= 0x0D || 0x1C <= n <= 0x20 || n == 0x85 || n == 0xA0 || n == 0x1680 || 0x2000 <= n <= 0x200A
    || n == 0x2028 || n == 0x2029 || n == 0x202F || n == 0x205F || n == 0x3000
  }

  function Strip(s: string): string {
    if s == [] then s
    else if IsSpace(s[0]) then Strip(s[1..])
    else if IsSpace(s[|s| - 1]) then Strip(s[..|s| - 1])
    else s
  }

  /** The sign for kelvin is the one character outside ASCII whose lower case is an ASCII letter alone. */
  const KELVIN := 0x212A as char

  function LowerChar(c: char): char {
    if 'A' <= c <= 'Z' then (c as int + 32) as char else if c == KELVIN then 'k' else c
  }

  function Lower(s: string): string {
    seq(|s|, i requires 0 <= i < |s| => LowerChar(s[i]))
  }

  predicate Blank(s: string) {
    forall i :: 0 <= i < |s| ==> IsSpace(s[i])
  }

  /** What is stripped is exactly the white space around the text. */
  lemma {:induction false} StripIs(s: string, i: nat, j: nat)
    requires i < j <= |s| && Blank(s[..i]) && Blank(s[j..]) && !IsSpace(s[i]) && !IsSpace(s[j - 1])
    ensures Strip(s) == s[i..j]
    decreases |s|
  {
    hide IsSpace;
    if i > 0 {
      assert IsSpace(s[..i][0]);
      assert s[1..][..i - 1] == s[..i][1..] && s[1..][j - 1..] == s[j..] && s[1..][i - 1..j - 1] == s[i..j];
      StripIs(s[1..], i - 1, j - 1);
    } else if j < |s| {
      var n := |s| - 1;
      assert IsSpace(s[j..][n - j]);
      assert s[..n][j..] == s[j..][..n - j] && s[..n][i..j] == s[i..j];
      StripIs(s[..n], i, j);
    }
  }

  /** `core` stands in `s` from i on, with white space before and after it. */
  ghost predicate Stands(s: string, core: string, i: nat) {
    i + |core| <= |s| && core == s[i..i + |core|] && Blank(s[..i]) && Blank(s[i + |core|..])
  }

  lemma {:induction false} StripSplits(s: string) returns (i: nat)
    ensures Stands(s, Strip(s), i)
    decreases |s|
  {
    if s == [] {
      i := 0;
    } else if IsSpace(s[0]) {
      assert Strip(s) == Strip(s[1..]);
      hide Strip, IsSpace, Stands;
      i := StripSplits(s[1..]);
      StandsAfter(s, Strip(s), i);
      i := i + 1;
    } else if IsSpace(s[|s| - 1]) {
      assert Strip(s) == Strip(s[..|s| - 1]);
      hide Strip, IsSpace, Stands;
      i := StripSplits(s[..|s| - 1]);
      StandsBefore(s, Strip(s), i);
    } else {
      i := 0;
      assert Strip(s) == s;
      hide IsSpace, Strip;
    }
  }

  lemma StandsAfter(s: string, core: string, i: nat)
    requires s != [] && IsSpace(s[0]) && Stands(s[1..], core, i)
    ensures Stands(s, core, i + 1)
  {
    hide IsSpace;
    var j := i + |core|;
    assert s[j + 1..] == s[1..][j..];
    assert s[..i + 1] == [s[0]] + s[1..][..i];
    assert s[i + 1..j + 1] == s[1..][i..j];
  }

  lemma StandsBefore(s: string, core: string, i: nat)
    requires s != [] && IsSpace(s[|s| - 1]) && Stands(s[..|s| - 1], core, i)
    ensures Stands(s, core, i)
  {
    hide IsSpace;
    var j := i + |core|;
    assert s[..i] == s[..|s| - 1][..i];
    assert s[j..] == s[..|s| - 1][j..] + [s[|s| - 1]];
    assert s[i..j] == s[..|s| - 1][i..j];
  }
}
