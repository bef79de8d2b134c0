/**
 * Python's `str.strip()` with no argument: remove leading and trailing
 * whitespace, where whitespace is what `str.isspace()` accepts.
 */
module Text {

  /** The characters Python's `str.isspace()` accepts. */
  predicate IsSpace(c: char) {
    var n := c as int;
    || 0x09 <= n <= 0x0D
    || 0x1C <= n <= 0x20
    || n == 0x85 || n == 0xA0 || n == 0x1680
    || 0x2000 <= n <= 0x200A
    || n == 0x2028 || n == 0x2029 || n == 0x202F || n == 0x205F || n == 0x3000
  }

  /** Neither the first nor the last character is whitespace. */
  predicate IsStripped(s: string) {
    s == [] || (!IsSpace(s[0]) && !IsSpace(s[|s| - 1]))
  }

  /** `s.lstrip()`: the longest suffix of `s` that does not start with whitespace. */
  function TrimStart(s: string): (r: string)
    ensures |r| <= |s| && r == s[|s| - |r|..]
    ensures forall k :: 0 <= k < |s| - |r| ==> IsSpace(s[k])
    ensures r == [] || !IsSpace(r[0])
  {
    if s != [] && IsSpace(s[0]) then TrimStart(s[1..]) else s
  }

  /** `s.rstrip()`: the longest prefix of `s` that does not end with whitespace. */
  function TrimEnd(s: string): (r: string)
    ensures |r| <= |s| && r == s[..|r|]
    ensures forall k :: |r| <= k < |s| ==> IsSpace(s[k])
    ensures r == [] || !IsSpace(r[|r| - 1])
  {
    if s != [] && IsSpace(s[|s| - 1]) then TrimEnd(s[..|s| - 1]) else s
  }

  /** Everything in `s` before index `i` and from index `j` on is whitespace. */
  predicate SpaceOutside(s: string, i: int, j: int) {
    && 0 <= i <= j <= |s|
    && (forall k :: 0 <= k < i ==> IsSpace(s[k]))
    && (forall k :: j <= k < |s| ==> IsSpace(s[k]))
  }

  /** `s.strip()`: the slice of `s` left once the surrounding whitespace is cut off. */
  function Strip(s: string): (r: string)
    ensures IsStripped(r)
    ensures |r| <= |s|
    ensures exists i, j :: SpaceOutside(s, i, j) && r == s[i..j]
  {
    var t := TrimStart(s);
    var r := TrimEnd(t);
    var i, j := |s| - |t|, |s| - |t| + |r|;
    assert r == s[i..j];
    assert SpaceOutside(s, i, j) by {
      forall k | j <= k < |s| ensures IsSpace(s[k]) {
        assert s[k] == t[k - i];
      }
    }
    r
  }

  /** `strip()` yields the empty string exactly when every character is whitespace. */
  lemma StripEmptyIffAllSpace(s: string)
    ensures Strip(s) == [] <==> forall k :: 0 <= k < |s| ==> IsSpace(s[k])
  {
    var t := TrimStart(s);
    if Strip(s) != [] {
      var i := |s| - |t|;
      assert s[i] == t[0];
    }
  }

  /** Stripping a stripped string changes nothing. */
  lemma StripIdempotent(s: string)
    ensures Strip(Strip(s)) == Strip(s)
  {
    StripOfStripped(Strip(s));
  }

  /** A string without surrounding whitespace is its own strip. */
  lemma StripOfStripped(s: string)
    requires IsStripped(s)
    ensures Strip(s) == s
  {
    assert TrimStart(s) == s;
    assert TrimEnd(s) == s;
  }

  /** `marker` occurs in `text` starting at index `i`. */
  predicate OccursAt(text: string, marker: string, i: int) {
    0 <= i <= |text| - |marker| && text[i..i + |marker|] == marker
  }

  /** Python's `marker in text` for strings: `marker` occurs somewhere in `text`. */
  function Contains(text: string, marker: string): (r: bool)
    ensures r <==> exists i :: OccursAt(text, marker, i)
  {
    if |text| < |marker| then false
    else if text[..|marker|] == marker then
      assert OccursAt(text, marker, 0);
      true
    else
      var rest := Contains(text[1..], marker);
      assert forall i :: OccursAt(text[1..], marker, i) <==> OccursAt(text, marker, i + 1) by {
        forall i ensures OccursAt(text[1..], marker, i) <==> OccursAt(text, marker, i + 1) {
          if 0 <= i <= |text| - 1 - |marker| {
            assert text[1..][i..i + |marker|] == text[i + 1..i + 1 + |marker|];
          }
        }
      }
      assert OccursAt(text, marker, 0) == false;
      assert forall i :: OccursAt(text, marker, i) ==> i == 0 || OccursAt(text[1..], marker, i - 1);
      rest
  }
}
