/** The part of JavaScript string semantics the components rely on: String.prototype.trim. */
module JsText {

  /** The code points ECMAScript's `trim` removes: WhiteSpace (tab, vertical tab, form feed,
      space, no-break space, byte order mark and the Unicode space separators) and LineTerminator. */
  predicate IsWhiteSpace(c: char)
  {
    || c == '\t' || c == '\U{000B}' || c == '\U{000C}' || c == ' '
    || c == '\U{00A0}' || c == '\U{FEFF}' || c == '\U{1680}'
    || ('\U{2000}' <= c <= '\U{200A}')
    || c == '\U{202F}' || c == '\U{205F}' || c == '\U{3000}'
    || c == '\n' || c == '\r' || c == '\U{2028}' || c == '\U{2029}'
  }

  /** `s` with its leading white space removed: a suffix of `s` that starts with a non-blank. */
  function TrimStart(s: string): (r: string)
    ensures |r| <= |s| && r == s[|s| - |r|..]
    ensures forall i :: 0 <= i < |s| - |r| ==> IsWhiteSpace(s[i])
    ensures r != [] ==> !IsWhiteSpace(r[0])
  {
    if s != [] && IsWhiteSpace(s[0]) then TrimStart(s[1..]) else s
  }

  /** `s` with its trailing white space removed: a prefix of `s` that ends with a non-blank. */
  function TrimEnd(s: string): (r: string)
    ensures |r| <= |s| && r == s[..|r|]
    ensures forall i :: |r| <= i < |s| ==> IsWhiteSpace(s[i])
    ensures r != [] ==> !IsWhiteSpace(r[|r| - 1])
  {
    if s != [] && IsWhiteSpace(s[|s| - 1]) then TrimEnd(s[..|s| - 1]) else s
  }

  /** `r` is a slice `s[i..j]` of `s`, and every character of `s` outside it is white space. */
  predicate IsCoreOf(s: string, r: string)
  {
    exists i, j ::
      && 0 <= i <= j <= |s| && r == s[i..j]
      && (forall k :: 0 <= k < i ==> IsWhiteSpace(s[k]))
      && (forall k :: j <= k < |s| ==> IsWhiteSpace(s[k]))
  }

  /** A prefix `r` of the suffix `s[i..]`, with only white space around it, is a core of `s`. */
  lemma CoreOfSuffixPrefix(s: string, i: nat, r: string)
    requires i <= |s| && |r| <= |s| - i && r == s[i..][..|r|]
    requires forall k :: 0 <= k < i ==> IsWhiteSpace(s[k])
    requires forall k :: |r| <= k < |s| - i ==> IsWhiteSpace(s[i..][k])
    ensures IsCoreOf(s, r)
  {
    var j := i + |r|;
    assert r == s[i..j];
    forall k | j <= k < |s|
      ensures IsWhiteSpace(s[k])
    {
      assert s[k] == s[i..][k - i];
    }
    assert 0 <= i <= j <= |s| && r == s[i..j];
  }

  /** Trimming the start and then the end leaves a slice of `s` with only white space around it. */
  lemma TrimBothIsCore(s: string)
    ensures IsCoreOf(s, TrimEnd(TrimStart(s)))
  {
    var t := TrimStart(s);
    CoreOfSuffixPrefix(s, |s| - |t|, TrimEnd(t));
  }

  /** JavaScript's `s.trim()`: what is left of `s` once the white space around it is removed.
      It is empty exactly when every character of `s` is white space, it neither starts nor ends
      with white space, and it leaves an already trimmed string alone. */
  function Trim(s: string): (r: string)
    ensures |r| <= |s| && IsCoreOf(s, r)
    ensures r == [] <==> forall i :: 0 <= i < |s| ==> IsWhiteSpace(s[i])
    ensures r != [] ==> !IsWhiteSpace(r[0]) && !IsWhiteSpace(r[|r| - 1])
    ensures (s == [] || (!IsWhiteSpace(s[0]) && !IsWhiteSpace(s[|s| - 1]))) ==> r == s
  {
    var t := TrimStart(s);
    var r := TrimEnd(t);
    assert r != [] ==> r[0] == t[0];
    TrimBothIsCore(s);
    r
  }

  /** A string is blank when its trimmed form is the empty (falsy) string. */
  predicate IsBlank(s: string)
  {
    Trim(s) == []
  }
}
