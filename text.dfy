/**
 * The PHP string primitives the gateway relies on: truthiness of strings,
 * `str_replace(' ', '+', ..)`, `trim`, the first piece of
 * `preg_split('/[,:]/', ..)`, `strtolower` and `strpos(.., 'ar') !== false`.
 */
module Text {

  /** PHP truthiness of a string: '' and '0' are the only falsy strings (`empty`, `!`). */
  predicate Falsy(s: string) {
    s == "" || s == "0"
  }

  /** `str_replace(' ', '+', s)`: every space becomes a plus sign, nothing else changes. */
  function SpacesToPlus(s: string): (r: string)
    ensures |r| == |s|
    ensures forall i :: 0 <= i < |s| ==> r[i] == (if s[i] == ' ' then '+' else s[i])
  {
    if s == [] then [] else [if s[0] == ' ' then '+' else s[0]] + SpacesToPlus(s[1..])
  }

  /** `strtolower` on PHP 8: only ASCII upper-case letters are lowered. */
  function AsciiLower(s: string): (r: string)
    ensures |r| == |s|
    ensures forall i :: 0 <= i < |s| ==> r[i] == (if 'A' <= s[i] <= 'Z' then (s[i] as int + 32) as char else s[i])
  {
    if s == [] then [] else [if 'A' <= s[0] <= 'Z' then (s[0] as int + 32) as char else s[0]] + AsciiLower(s[1..])
  }

  /** True iff "ar" occurs in `s` (`strpos($s, 'ar') !== false`). */
  function ContainsAr(s: string): (b: bool)
    ensures b <==> exists i :: 0 <= i < |s| - 1 && s[i] == 'a' && s[i + 1] == 'r'
  {
    if |s| < 2 then false
    else if s[0] == 'a' && s[1] == 'r' then true
    else
      var rest := ContainsAr(s[1..]);
      assert forall i :: 1 <= i < |s| - 1 ==> s[i] == s[1..][i - 1] && s[i + 1] == s[1..][i];
      rest
  }

  /** The characters PHP's `trim` removes by default: " \t\n\r\0\x0B". */
  predicate IsTrimChar(c: char) {
    c == ' ' || c == '\t' || c == '\n' || c == '\r' || c == '\0' || c == '\U{000B}'
  }

  /** Number of trim characters at the front of `s`. */
  function LeadingTrim(s: string): (k: nat)
    ensures k <= |s|
    ensures forall i :: 0 <= i < k ==> IsTrimChar(s[i])
    ensures k < |s| ==> !IsTrimChar(s[k])
  {
    if s == [] || !IsTrimChar(s[0]) then 0 else 1 + LeadingTrim(s[1..])
  }

  /** Number of trim characters at the back of `s`. */
  function TrailingTrim(s: string): (k: nat)
    ensures k <= |s|
    ensures forall i :: |s| - k <= i < |s| ==> IsTrimChar(s[i])
    ensures k < |s| ==> !IsTrimChar(s[|s| - 1 - k])
  {
    if s == [] || !IsTrimChar(s[|s| - 1]) then 0 else 1 + TrailingTrim(s[..|s| - 1])
  }

  /** PHP `trim(s)`: the slice of `s` left after removing trim characters at both ends. */
  function Trim(s: string): (r: string)
    ensures exists a, b ::
              && 0 <= a <= b <= |s| && r == s[a..b]
              && (forall i :: 0 <= i < a ==> IsTrimChar(s[i]))
              && (forall i :: b <= i < |s| ==> IsTrimChar(s[i]))
    ensures r == [] || (!IsTrimChar(r[0]) && !IsTrimChar(r[|r| - 1]))
  {
    var a := LeadingTrim(s);
    var t := s[a..];
    var k := TrailingTrim(t);
    var b := |s| - k;
    assert t[..|t| - k] == s[a..b];
    assert forall i :: b <= i < |s| ==> IsTrimChar(s[i]) by {
      forall i | b <= i < |s|
        ensures IsTrimChar(s[i])
      {
        assert s[i] == t[i - a];
      }
    }
    assert t[..|t| - k] != [] ==> t[..|t| - k][0] == s[a] && t[..|t| - k][|t| - k - 1] == t[|t| - 1 - k];
    t[..|t| - k]
  }

  /** Trimming adds no character: one absent from `s` is absent from `Trim(s)`. */
  lemma TrimKeepsOut(s: string, c: char)
    requires c !in s
    ensures c !in Trim(s)
  {
    var r := Trim(s);
    var a, b :| 0 <= a <= b <= |s| && r == s[a..b];
    assert forall i :: 0 <= i < |r| ==> r[i] == s[a + i];
  }

  /** The first element of `preg_split('/[,:]/', s)`: `s` up to its first ',' or ':'. */
  function FirstSegment(s: string): (r: string)
    ensures r <= s
    ensures forall i :: 0 <= i < |r| ==> r[i] != ',' && r[i] != ':'
    ensures |r| < |s| ==> s[|r|] == ',' || s[|r|] == ':'
  {
    if s == [] || s[0] == ',' || s[0] == ':' then [] else [s[0]] + FirstSegment(s[1..])
  }
}
