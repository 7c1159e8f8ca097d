/** The string functions of Go's `strings` package that the services use,
    restricted to ASCII case mapping, and the slug rule built from them. */
module Text {

  predicate IsUpper(c: char)
  {
    'A' <= c <= 'Z'
  }

  /** unicode.ToLower on an ASCII letter; every other character is left alone. */
  function LowerChar(c: char): (r: char)
    ensures !IsUpper(r)
    ensures IsUpper(c) ==> 'a' <= r <= 'z' && r as int == c as int + 32
    ensures !IsUpper(c) ==> r == c
  {
    if IsUpper(c) then (c as int + 32) as char else c
  }

  /** strings.ToLower */
  function ToLower(s: string): (r: string)
    ensures |r| == |s|
    ensures forall i :: 0 <= i < |s| ==> r[i] == LowerChar(s[i])
  {
    if s == [] then [] else [LowerChar(s[0])] + ToLower(s[1..])
  }

  /** strings.ReplaceAll(s, from, to) for a one-character pattern and replacement. */
  function ReplaceChar(s: string, from: char, to: char): (r: string)
    ensures |r| == |s|
    ensures forall i :: 0 <= i < |s| ==> r[i] == if s[i] == from then to else s[i]
  {
    if s == [] then [] else [if s[0] == from then to else s[0]] + ReplaceChar(s[1..], from, to)
  }

  /** The slug of a community or university name:
      strings.ReplaceAll(strings.ToLower(name), " ", "_"). */
  function Slug(name: string): (r: string)
    ensures |r| == |name|
    ensures forall i :: 0 <= i < |name| ==> r[i] == if name[i] == ' ' then '_' else LowerChar(name[i])
  {
    ReplaceChar(ToLower(name), ' ', '_')
  }

  /** The slug keeps the length, has no space and no upper-case letter, and
      differs from the name only by lower-casing and by '_' for ' '. */
  lemma SlugShape(name: string)
    ensures |Slug(name)| == |name|
    ensures forall i :: 0 <= i < |name| ==>
      Slug(name)[i] != ' ' && !IsUpper(Slug(name)[i]) &&
      Slug(name)[i] == (if name[i] == ' ' then '_' else LowerChar(name[i]))
  {
  }

  /** Slugging a slug changes nothing. */
  lemma SlugIdempotent(name: string)
    ensures Slug(Slug(name)) == Slug(name)
  {
    var s := Slug(name);
    SlugShape(name);
    SlugShape(s);
    forall i | 0 <= i < |s| ensures Slug(s)[i] == s[i] {
    }
  }

  /** Lower-casing twice is lower-casing once. */
  lemma ToLowerIdempotent(s: string)
    ensures ToLower(ToLower(s)) == ToLower(s)
  {
    var t := ToLower(s);
    forall i | 0 <= i < |t| ensures ToLower(t)[i] == t[i] {
    }
  }

  predicate HasPrefix(s: string, p: string)
  {
    |p| <= |s| && s[..|p|] == p
  }

  /** strings.Contains: some position of s starts with sub (true for an empty sub). */
  function Contains(s: string, sub: string): (r: bool)
    ensures sub == [] ==> r
    ensures r ==> |sub| <= |s|
    decreases |s|
  {
    HasPrefix(s, sub) || (s != [] && Contains(s[1..], sub))
  }

  /** sub occurs in s as a contiguous slice. */
  ghost predicate IsSubstring(sub: string, s: string)
  {
    exists i, j :: 0 <= i <= j <= |s| && s[i..j] == sub
  }

  /** A match found by Contains is a slice of s. */
  lemma {:induction false} ContainsFound(s: string, sub: string)
    requires Contains(s, sub)
    ensures IsSubstring(sub, s)
    decreases |s|
  {
    if HasPrefix(s, sub) {
      assert s[0..|sub|] == sub;
    } else {
      var t := s[1..];
      ContainsFound(t, sub);
      var i, j :| 0 <= i <= j <= |t| && t[i..j] == sub;
      assert s[i + 1..j + 1] == t[i..j];
    }
  }

  /** A slice of s equal to sub makes Contains true. */
  lemma {:induction false} SliceContained(s: string, sub: string, i: nat, j: nat)
    requires i <= j <= |s| && s[i..j] == sub
    ensures Contains(s, sub)
    decreases i
  {
    if i == 0 {
      assert s[..|sub|] == sub;
    } else {
      var t := s[1..];
      assert t[i - 1..j - 1] == s[i..j];
      SliceContained(t, sub, i - 1, j - 1);
    }
  }

  /** Contains agrees with the slice definition of a substring, both ways. */
  lemma ContainsIsSubstring(s: string, sub: string)
    ensures Contains(s, sub) <==> IsSubstring(sub, s)
  {
    if Contains(s, sub) {
      ContainsFound(s, sub);
    }
    if IsSubstring(sub, s) {
      var i, j :| 0 <= i <= j <= |s| && s[i..j] == sub;
      SliceContained(s, sub, i, j);
    }
  }

  /** Every string contains the empty string. */
  lemma ContainsEmpty(s: string)
    ensures Contains(s, "")
  {
    assert HasPrefix(s, "");
  }
}
