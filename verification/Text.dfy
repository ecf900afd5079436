/** The string operations that identities go through; letters have case only within ASCII. */
module Text {
  /** `c.isspace()`. */
  predicate IsSpace(c: char) {
    var n := c as int;
    0x09 <= n <= 0x0D || 0x1C <= n <= 0x20 || n == 0x85 || n == 0xA0 || n == 0x1680 || 0x2000 <= n <= 0x200A
      || 0x2028 <= n <= 0x2029 || n == 0x202F || n == 0x205F || n == 0x3000
  }

  /** `not s.strip()`. */
  predicate IsBlank(s: string) {
    forall i :: 0 <= i < |s| ==> IsSpace(s[i])
  }

  function UpperChar(c: char): char {
    if 'a' <= c <= 'z' then c - 'a' + 'A' else c
  }

  function Upper(s: string): string {
    seq(|s|, i requires 0 <= i < |s| => UpperChar(s[i]))
  }

  function Strip(s: string): string {
    if s != "" && IsSpace(s[0]) then Strip(s[1..])
    else if s != "" && IsSpace(s[|s| - 1]) then Strip(s[..|s| - 1])
    else s
  }

  /** `s.strip().upper()`, the form under which symbols are compared. */
  function Normalize(s: string): string {
    Upper(Strip(s))
  }

  /** One more white space in front. */
  lemma ShiftedMiddle(s: string, i: nat, j: nat)
    requires s != "" && i <= j < |s| && IsSpace(s[0]) && IsBlank(s[1..][..i]) && IsBlank(s[1..][j..])
    ensures s[1..][i..j] == s[i + 1..j + 1] && IsBlank(s[..i + 1]) && IsBlank(s[j + 1..])
  {
    assert s[1..][j..] == s[j + 1..];
    assert s[..i + 1] == [s[0]] + s[1..][..i];
  }

  /** One more white space at the end. */
  lemma ExtendedMiddle(s: string, i: nat, j: nat)
    requires i <= j < |s| && IsSpace(s[|s| - 1]) && IsBlank(s[..|s| - 1][..i]) && IsBlank(s[..|s| - 1][j..])
    ensures s[..|s| - 1][i..j] == s[i..j] && IsBlank(s[..i]) && IsBlank(s[j..])
  {
    assert s[..|s| - 1][..i] == s[..i];
    assert s[j..] == s[..|s| - 1][j..] + [s[|s| - 1]];
  }

  /** Stripping takes white space off both ends and nothing else. */
  lemma {:induction false} StripIsMiddle(s: string) returns (i: nat, j: nat)
    ensures i <= j <= |s| && Strip(s) == s[i..j] && IsBlank(s[..i]) && IsBlank(s[j..])
    decreases |s|
  {
    if s != "" && IsSpace(s[0]) {
      i, j := StripIsMiddle(s[1..]);
      ShiftedMiddle(s, i, j);
      i, j := i + 1, j + 1;
    } else if s != "" && IsSpace(s[|s| - 1]) {
      i, j := StripIsMiddle(s[..|s| - 1]);
      ExtendedMiddle(s, i, j);
    } else {
      i, j := 0, |s|;
      assert s[0..|s|] == s;
    }
  }

  /** The form under which symbols are compared: what is left of the text, small ASCII letters as capitals. */
  lemma NormalizeIs(s: string) returns (i: nat, j: nat)
    ensures i <= j <= |s| && IsBlank(s[..i]) && IsBlank(s[j..])
    ensures i < j ==> !IsSpace(s[i]) && !IsSpace(s[j - 1])
    ensures |Normalize(s)| == j - i
    ensures forall k :: 0 <= k < j - i ==>
      var c := s[i + k]; Normalize(s)[k] == if 'a' <= c <= 'z' then c - ' ' else c
  {
    i, j := StripIsMiddle(s);
    StripEnds(s);
  }

  lemma {:induction false} StripEnds(s: string)
    ensures var t := Strip(s); t == "" || (!IsSpace(t[0]) && !IsSpace(t[|t| - 1]))
    decreases |s|
  {
    if s != "" && IsSpace(s[0]) {
      StripEnds(s[1..]);
    } else if s != "" && IsSpace(s[|s| - 1]) {
      StripEnds(s[..|s| - 1]);
    }
  }

  /** Normalising is idempotent, so normalised symbols are compared as they are. */
  lemma NormalizeTwice(s: string)
    ensures Normalize(Normalize(s)) == Normalize(s)
  {
    StripEnds(s);
    var t := Normalize(s);
    assert Strip(t) == t;
    assert Upper(t) == t;
  }

  lemma {:induction false} BlankStrips(s: string)
    requires IsBlank(s)
    ensures Strip(s) == ""
    decreases |s|
  {
    if s != "" {
      assert IsSpace(s[0]);
      BlankStrips(s[1..]);
    }
  }

  /** A symbol whose normal form is not empty stays visible in upper case. */
  lemma NormalizedIsVisible(s: string)
    requires Normalize(s) != ""
    ensures !IsBlank(Upper(s))
  {
    if IsBlank(s) {
      BlankStrips(s);
    } else {
      var i :| 0 <= i < |s| && !IsSpace(s[i]);
      assert !IsSpace(Upper(s)[i]);
    }
  }

  lemma NormalizeLetter(c: char)
    requires !IsSpace(c)
    ensures Normalize([c]) == [UpperChar(c)] && !IsBlank([c])
  {
    assert [c][0] == c;
  }
}
