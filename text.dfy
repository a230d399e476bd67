/** Python's `str.strip()` with no argument, as pandas applies it to each
    column name through `columns.str.strip()`. */
module Text {

  /** The characters for which Python's `str.isspace()` holds. */
  predicate IsSpace(c: char) {
    c == ' ' || ('\t' <= c <= '\r') || ('\U{001C}' <= c <= '\U{001F}')
    || c == '\U{0085}' || c == '\U{00A0}' || c == '\U{1680}'
    || ('\U{2000}' <= c <= '\U{200A}') || c == '\U{2028}' || c == '\U{2029}'
    || c == '\U{202F}' || c == '\U{205F}' || c == '\U{3000}'
  }

  /** Number of whitespace characters at the start of `s`. */
  function Lead(s: string): (k: nat)
    ensures k <= |s|
    ensures forall i :: 0 <= i < k ==> IsSpace(s[i])
    ensures k < |s| ==> !IsSpace(s[k])
  {
    if s == [] || !IsSpace(s[0]) then 0 else 1 + Lead(s[1..])
  }

  /** Number of whitespace characters at the end of `s`. */
  function Trail(s: string): (k: nat)
    ensures k <= |s|
    ensures forall i :: |s| - k <= i < |s| ==> IsSpace(s[i])
    ensures k < |s| ==> !IsSpace(s[|s| - 1 - k])
  {
    if s == [] || !IsSpace(s[|s| - 1]) then 0 else 1 + Trail(s[..|s| - 1])
  }

  /** `s.strip()`: `s` without its leading and trailing whitespace. */
  function Strip(s: string): (r: string)
    ensures Lead(s) + |r| <= |s| && s[Lead(s)..Lead(s) + |r|] == r
    ensures forall i :: 0 <= i < Lead(s) ==> IsSpace(s[i])
    ensures forall i :: Lead(s) + |r| <= i < |s| ==> IsSpace(s[i])
    ensures r == [] || (!IsSpace(r[0]) && !IsSpace(r[|r| - 1]))
  {
    var t := s[Lead(s)..];
    t[..|t| - Trail(t)]
  }

  /** Stripping is determined by its defining properties: any infix of `s`
      whose padding is whitespace and whose ends are not is `Strip(s)`. */
  lemma StripUnique(s: string, a: nat, b: nat)
    requires a <= b <= |s|
    requires forall i :: 0 <= i < a ==> IsSpace(s[i])
    requires forall i :: b <= i < |s| ==> IsSpace(s[i])
    requires a == b || (!IsSpace(s[a]) && !IsSpace(s[b - 1]))
    ensures Strip(s) == s[a..b]
  {
    var k := Lead(s);
    if a < b {
      assert k == a;
    }
  }

  /** Stripping twice changes nothing. */
  lemma StripIdempotent(s: string)
    ensures Strip(Strip(s)) == Strip(s)
  {
    var r := Strip(s);
    StripUnique(r, 0, |r|);
  }

  /** A string whose ends are not whitespace is its own strip. */
  lemma StripOfTrimmed(s: string)
    requires s == [] || (!IsSpace(s[0]) && !IsSpace(s[|s| - 1]))
    ensures Strip(s) == s
  {
    StripUnique(s, 0, |s|);
  }
}
