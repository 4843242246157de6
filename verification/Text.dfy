/** White space and trimming, as Rust's string operations define them. */
module Text {

  /** The characters with the Unicode property White_Space. */
  predicate IsSpace(c: char) {
    || '\t' <= c <= '\r' || c == ' ' || c == '\U{85}' || c == '\U{A0}' || c == '\U{1680}'
    || '\U{2000}' <= c <= '\U{200A}' || c == '\U{2028}' || c == '\U{2029}' || c == '\U{202F}'
    || c == '\U{205F}' || c == '\U{3000}'
  }

  function TrimStart(s: string): string {
    if s != [] && IsSpace(s[0]) then TrimStart(s[1..]) else s
  }

  function TrimEnd(s: string): string {
    if s != [] && IsSpace(s[|s| - 1]) then TrimEnd(s[..|s| - 1]) else s
  }

  function Trim(s: string): string {
    TrimEnd(TrimStart(s))
  }

  predicate AllSpace(s: string) {
    forall i | 0 <= i < |s| :: IsSpace(s[i])
  }

  /** Among the ASCII characters the blank and the five controls from tab to carriage return are white space. */
  lemma AsciiSpace(c: char)
    requires c < '\U{80}'
    ensures IsSpace(c) <==> c == ' ' || c as int in {9, 10, 11, 12, 13}
  {
  }

  /** No whitespace at either end. */
  predicate Trimmed(s: string) {
    s != [] ==> !IsSpace(s[0]) && !IsSpace(s[|s| - 1])
  }

  lemma {:induction false} TrimStartIsSuffix(s: string) returns (k: nat)
    ensures k <= |s| && TrimStart(s) == s[k..] && AllSpace(s[..k])
    ensures TrimStart(s) != [] ==> !IsSpace(TrimStart(s)[0])
  {
    k := 0;
    if s != [] && IsSpace(s[0]) {
      k := TrimStartIsSuffix(s[1..]);
      assert s[1..][k..] == s[k + 1..] && s[..k + 1] == [s[0]] + s[1..][..k];
      k := k + 1;
    }
  }

  lemma {:induction false} TrimEndIsPrefix(s: string) returns (k: nat)
    ensures k <= |s| && TrimEnd(s) == s[..k] && AllSpace(s[k..])
    ensures TrimEnd(s) != [] ==> !IsSpace(TrimEnd(s)[|TrimEnd(s)| - 1])
  {
    k := |s|;
    if s != [] && IsSpace(s[|s| - 1]) {
      var n := |s| - 1;
      k := TrimEndIsPrefix(s[..n]);
      assert s[..n][..k] == s[..k] && s[k..] == s[..n][k..] + [s[n]];
    }
  }

  /** Trimming yields a trimmed substring, and what it takes away is white space. */
  lemma TrimIsTrimmed(s: string) returns (i: nat, j: nat)
    ensures Trimmed(Trim(s))
    ensures i <= j <= |s| && Trim(s) == s[i..j] && AllSpace(s[..i]) && AllSpace(s[j..])
  {
    i := TrimStartIsSuffix(s);
    var m := TrimEndIsPrefix(s[i..]);
    j := i + m;
    assert s[i..][..m] == s[i..j] && s[i..][m..] == s[j..];
  }

  /** Nothing is left exactly of white space. */
  lemma BlankIsAllSpace(s: string)
    ensures Trim(s) == "" <==> AllSpace(s)
  {
    var i, j := TrimIsTrimmed(s);
    if Trim(s) == "" {
      assert s == s[..i] + s[j..];
    } else {
      assert Trim(s)[0] == s[i];
    }
  }

  /** Trimming removes leading blanks from a trimmed string, and nothing else. */
  lemma TrimLeadingSpace(s: string)
    requires Trimmed(s)
    ensures Trim(s) == s && Trim(" " + s) == s
  {
    assert (" " + s)[1..] == s;
    assert TrimStart(" " + s) == TrimStart(s) == s;
  }
}
