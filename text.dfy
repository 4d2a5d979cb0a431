/** Whitespace handling of JavaScript strings: String.prototype.trim, which both
    components apply to their raw input fields before checking them. */
module Text {

  /** The ECMAScript WhiteSpace and LineTerminator code points: what trim() strips
      and what Number() ignores around a numeral. */
  predicate IsSpace(c: char) {
    c == '\t' || c == '\n' || c == '\U{000B}' || c == '\U{000C}' || c == '\r' || c == ' '
    || c == '\U{00A0}' || c == '\U{1680}' || ('\U{2000}' <= c <= '\U{200A}')
    || c == '\U{2028}' || c == '\U{2029}' || c == '\U{202F}' || c == '\U{205F}'
    || c == '\U{3000}' || c == '\U{FEFF}'
  }

  /** A string made of whitespace only (the empty string included). */
  predicate IsBlank(s: string) {
    forall i :: 0 <= i < |s| ==> IsSpace(s[i])
  }

  /** A string that neither starts nor ends with whitespace. */
  predicate IsTrimmed(s: string) {
    s == [] || (!IsSpace(s[0]) && !IsSpace(s[|s| - 1]))
  }

  /** The number of whitespace characters s starts with. */
  function LeadingSpaces(s: string): (n: nat)
    ensures n <= |s|
    ensures forall i :: 0 <= i < n ==> IsSpace(s[i])
    ensures n < |s| ==> !IsSpace(s[n])
  {
    if s != [] && IsSpace(s[0]) then 1 + LeadingSpaces(s[1..]) else 0
  }

  /** The number of whitespace characters s ends with. */
  function TrailingSpaces(s: string): (n: nat)
    ensures n <= |s|
    ensures forall i :: |s| - n <= i < |s| ==> IsSpace(s[i])
    ensures n < |s| ==> !IsSpace(s[|s| - 1 - n])
  {
    if s != [] && IsSpace(s[|s| - 1]) then 1 + TrailingSpaces(s[..|s| - 1]) else 0
  }

  /** s without its leading whitespace (String.prototype.trimStart, which parseFloat applies). */
  function TrimStart(s: string): string {
    s[LeadingSpaces(s)..]
  }

  /** String.prototype.trim: s with its leading and trailing whitespace removed. */
  function Trim(s: string): (r: string)
    ensures |r| <= |s| && IsTrimmed(r)
    ensures r == [] <==> IsBlank(s)
  {
    var u := TrimStart(s);
    var r := u[..|u| - TrailingSpaces(u)];
    assert r != [] ==> r[0] == u[0] && r[|r| - 1] == u[|u| - 1 - TrailingSpaces(u)];
    assert IsBlank(s) ==> LeadingSpaces(s) == |s|;
    r
  }

  /** trim() removes a block of whitespace from each end and keeps the middle of s as it is. */
  lemma TrimIsSlice(s: string)
    ensures exists k :: 0 <= k <= |s| - |Trim(s)| && Trim(s) == s[k..k + |Trim(s)|]
                        && IsBlank(s[..k]) && IsBlank(s[k + |Trim(s)|..])
  {
    var k := LeadingSpaces(s);
    var u := TrimStart(s);
    var r := Trim(s);
    assert r == s[k..k + |r|];
    var tail := s[k + |r|..];
    forall j | 0 <= j < |tail| ensures IsSpace(tail[j]) {
      assert tail[j] == u[|r| + j];
    }
    assert IsBlank(s[..k]);
  }

  /** trim() leaves a string alone exactly when it has no whitespace at either end. */
  lemma {:induction false} TrimFixesTrimmed(s: string)
    ensures Trim(s) == s <==> IsTrimmed(s)
  {
    if IsTrimmed(s) && s != [] {
      assert LeadingSpaces(s) == 0;
      assert TrimStart(s) == s;
      assert TrailingSpaces(s) == 0;
    }
  }

  /** trim() is idempotent. */
  lemma TrimIdempotent(s: string)
    ensures Trim(Trim(s)) == Trim(s)
  {
    TrimFixesTrimmed(Trim(s));
  }
}
