/** The few str operations the kernel relies on. */
module Text {

  /** The characters str.strip removes that can occur in the texts modelled here. */
  predicate IsSpace(c: char) {
    c in {' ', '\t', '\n', '\r', '\U{0B}', '\U{0C}', '\U{1C}', '\U{1D}', '\U{1E}', '\U{1F}', '\U{85}', '\U{A0}'}
  }

  /** s.strip() == "". */
  predicate Blank(s: string) {
    forall i | 0 <= i < |s| :: IsSpace(s[i])
  }

  function StripLeft(s: string): string {
    if s != [] && IsSpace(s[0]) then StripLeft(s[1..]) else s
  }

  function StripRight(s: string): string {
    if s != [] && IsSpace(s[|s| - 1]) then StripRight(s[..|s| - 1]) else s
  }

  function Strip(s: string): string {
    StripRight(StripLeft(s))
  }

  lemma {:induction false} StripLeftTakes(s: string) returns (n: nat)
    ensures n <= |s| && StripLeft(s) == s[n..] && Blank(s[..n]) && (n < |s| ==> !IsSpace(s[n]))
  {
    n := 0;
    if s != [] && IsSpace(s[0]) {
      var k := StripLeftTakes(s[1..]);
      n := k + 1;
      forall i | 0 <= i < n ensures IsSpace(s[..n][i]) {
        if i > 0 { assert s[..n][i] == s[1..][..k][i - 1]; }
      }
    }
  }

  lemma {:induction false} StripRightTakes(s: string) returns (n: nat)
    ensures n <= |s| && StripRight(s) == s[..n] && Blank(s[n..]) && (n > 0 ==> !IsSpace(s[n - 1]))
  {
    n := |s|;
    if s != [] && IsSpace(s[|s| - 1]) {
      n := StripRightTakes(s[..|s| - 1]);
      forall i | 0 <= i < |s| - n ensures IsSpace(s[n..][i]) {
        if i < |s| - n - 1 { assert s[n..][i] == s[..|s| - 1][n..][i]; }
      }
    }
  }

  /** Stripping takes white space from both ends, all of it, and nothing else. */
  lemma StripTakesBlanks(s: string) returns (a: nat, b: nat)
    ensures a <= b <= |s| && Strip(s) == s[a..b] && Blank(s[..a]) && Blank(s[b..])
    ensures Strip(s) != "" ==> !IsSpace(s[a]) && !IsSpace(s[b - 1])
  {
    a := StripLeftTakes(s);
    var n := StripRightTakes(s[a..]);
    b := a + n;
    assert s[a..][..n] == s[a..b] && s[a..][n..] == s[b..];
  }
}

/** The comparison of digests in axiomgate_kernel/crypto.py. */
module Digests {

  predicate Ascii(s: string) {
    forall i | 0 <= i < |s| :: s[i] as int < 128
  }

  datatype Comparison = Same | Differ | Raised

  /** hmac_equal of a computed digest, which is hexadecimal, and a text: compare_digest raises on a text of the same
      length that is not ASCII. */
  function HmacEqual(digest: string, text: string): (c: Comparison)
    ensures c == Same <==> digest == text
  {
    if digest == text then Same
    else if |digest| == |text| && !Ascii(text) then Raised
    else Differ
  }
}
