/** String helpers shared by the parsers, validators and mappers.
    They reproduce the JavaScript string primitives the application uses:
    the `\s` character class, `trim`, `split` on a character class, `join`,
    `includes` and ASCII case mapping. */
module Text {

  /** JavaScript's `\s`: WhiteSpace and LineTerminator code points
      (the same set `String.prototype.trim` strips). */
  predicate IsSpace(c: char) {
    c == '\t' || c == '\n' || c == '\U{000B}' || c == '\U{000C}' || c == '\r' || c == ' '
    || c == '\U{00A0}' || c == '\U{1680}' || ('\U{2000}' <= c <= '\U{200A}')
    || c == '\U{2028}' || c == '\U{2029}' || c == '\U{202F}' || c == '\U{205F}'
    || c == '\U{3000}' || c == '\U{FEFF}'
  }

  /** The code points a regular expression's `.`, `^` and `$` (multiline) treat as line ends. */
  predicate IsLineTerminator(c: char) {
    c == '\n' || c == '\r' || c == '\U{2028}' || c == '\U{2029}'
  }

  predicate NoSpace(s: string) {
    forall i :: 0 <= i < |s| ==> !IsSpace(s[i])
  }

  predicate AllSpace(s: string) {
    forall i :: 0 <= i < |s| ==> IsSpace(s[i])
  }

  /** The first index at or after `i` that does not hold white space (`|s|` when none does). */
  function SpacesFrom(s: string, i: nat): (j: nat)
    requires i <= |s|
    ensures i <= j <= |s|
    ensures forall k :: i <= k < j ==> IsSpace(s[k])
    ensures j == |s| || !IsSpace(s[j])
    decreases |s| - i
  {
    if i < |s| && IsSpace(s[i]) then SpacesFrom(s, i + 1) else i
  }

  /** The index just after the last non-space before `j` (`0` when there is none). */
  function SpacesBefore(s: string, j: nat): (i: nat)
    requires j <= |s|
    ensures i <= j
    ensures forall k :: i <= k < j ==> IsSpace(s[k])
    ensures i == 0 || !IsSpace(s[i - 1])
  {
    if j > 0 && IsSpace(s[j - 1]) then SpacesBefore(s, j - 1) else j
  }

  /** `String.prototype.trimStart`: what follows the leading white space. */
  function TrimStart(s: string): (r: string)
    ensures |r| <= |s|
    ensures r == [] || !IsSpace(r[0])
  {
    s[SpacesFrom(s, 0)..]
  }

  /** `String.prototype.trimEnd`: what precedes the trailing white space. */
  function TrimEnd(s: string): (r: string)
    ensures |r| <= |s|
    ensures r == [] || !IsSpace(r[|r| - 1])
  {
    s[..SpacesBefore(s, |s|)]
  }

  /** `String.prototype.trim`. */
  function Trim(s: string): (r: string)
    ensures |r| <= |s|
    ensures r == [] || (!IsSpace(r[0]) && !IsSpace(r[|r| - 1]))
  {
    TrimEnd(TrimStart(s))
  }

  /** The trim is the slice of `s` left once white space is cut from both ends. With the
      end conditions of `Trim` this pins the result down: nothing but white space is
      removed, and all of it at each end. */
  lemma TrimIsInfix(s: string)
    ensures exists i, j :: 0 <= i <= j <= |s| && Trim(s) == s[i..j] && AllSpace(s[..i]) && AllSpace(s[j..])
  {
    var a := SpacesFrom(s, 0);
    var t := s[a..];
    var b := SpacesBefore(t, |t|);
    assert Trim(s) == s[a..a + b];
    assert AllSpace(s[..a]);
    var u := s[a + b..];
    forall k | 0 <= k < |u| ensures IsSpace(u[k]) {
      assert u[k] == t[b + k];
    }
  }

  /** A string that already starts and ends with a non-space is its own trim. */
  lemma TrimOfTrimmed(s: string)
    requires s == [] || (!IsSpace(s[0]) && !IsSpace(s[|s| - 1]))
    ensures Trim(s) == s
  {
  }

  /** A string trims to empty exactly when it is all white space. */
  lemma TrimEmptyIff(s: string)
    ensures Trim(s) == [] <==> AllSpace(s)
  {
    var t := TrimStart(s);
    if t == [] {
      assert TrimEnd(t) == [];
    } else {
      assert !IsSpace(t[0]);
      TrimEndKeepsNonSpace(t);
      assert !AllSpace(s) by { assert s[|s| - |t|] == t[0]; }
    }
  }

  lemma TrimEndKeepsNonSpace(t: string)
    requires t != [] && !IsSpace(t[0])
    ensures TrimEnd(t) != []
  {
  }

  lemma TrimIdempotent(s: string)
    ensures Trim(Trim(s)) == Trim(s)
  {
    TrimOfTrimmed(Trim(s));
  }

  /** JavaScript `toUpperCase`, restricted to ASCII letters. */
  function UpperChar(c: char): char {
    if 'a' <= c <= 'z' then (c as int - 32) as char else c
  }

  /** JavaScript `toLowerCase`, restricted to ASCII letters. */
  function LowerChar(c: char): char {
    if 'A' <= c <= 'Z' then (c as int + 32) as char else c
  }

  function ToUpper(s: string): (r: string)
    ensures |r| == |s| && forall i :: 0 <= i < |s| ==> r[i] == UpperChar(s[i])
  {
    seq(|s|, i requires 0 <= i < |s| => UpperChar(s[i]))
  }

  function ToLower(s: string): (r: string)
    ensures |r| == |s| && forall i :: 0 <= i < |s| ==> r[i] == LowerChar(s[i])
  {
    seq(|s|, i requires 0 <= i < |s| => LowerChar(s[i]))
  }

  /** Lower-casing never creates or removes white space. */
  lemma LowerKeepsSpace(c: char)
    ensures IsSpace(LowerChar(c)) <==> IsSpace(c)
  {
  }

  lemma {:induction false} LowerSpacesFrom(s: string, i: nat)
    requires i <= |s|
    ensures SpacesFrom(ToLower(s), i) == SpacesFrom(s, i)
    decreases |s| - i
  {
    if i < |s| {
      LowerKeepsSpace(s[i]);
      if IsSpace(s[i]) {
        LowerSpacesFrom(s, i + 1);
      }
    }
  }

  lemma {:induction false} LowerSpacesBefore(s: string, j: nat)
    requires j <= |s|
    ensures SpacesBefore(ToLower(s), j) == SpacesBefore(s, j)
  {
    if j > 0 {
      LowerKeepsSpace(s[j - 1]);
      if IsSpace(s[j - 1]) {
        LowerSpacesBefore(s, j - 1);
      }
    }
  }

  /** Trimming and lower-casing commute. */
  lemma TrimLower(s: string)
    ensures Trim(ToLower(s)) == ToLower(Trim(s))
  {
    var a := SpacesFrom(s, 0);
    LowerSpacesFrom(s, 0);
    var t := s[a..];
    assert ToLower(s)[a..] == ToLower(t);
    var b := SpacesBefore(t, |t|);
    LowerSpacesBefore(t, |t|);
    assert ToLower(t)[..b] == ToLower(t[..b]);
  }

  /** `s.replace(/\s/g, '')`: every white-space character removed, the rest kept in order. */
  function RemoveSpaces(s: string): (r: string)
    ensures NoSpace(r) && |r| <= |s|
    ensures NoSpace(s) ==> r == s
  {
    if s == [] then []
    else if IsSpace(s[0]) then RemoveSpaces(s[1..])
    else [s[0]] + RemoveSpaces(s[1..])
  }

  /** Removing white space from a concatenation removes it from each part: with
      `RemoveSpacesOne`, the result is the input's other characters, in their order. */
  lemma {:induction false} RemoveSpacesAppend(a: string, b: string)
    ensures RemoveSpaces(a + b) == RemoveSpaces(a) + RemoveSpaces(b)
    decreases |a|
  {
    if a == [] {
      assert a + b == b;
    } else {
      var t := a[1..] + b;
      assert a + b == [a[0]] + t;
      RemoveSpacesAppend(a[1..], b);
      if !IsSpace(a[0]) {
        assert RemoveSpaces([a[0]] + t) == [a[0]] + RemoveSpaces(t);
      }
    }
  }

  /** A single character is dropped exactly when it is white space. */
  lemma RemoveSpacesOne(c: char)
    ensures RemoveSpaces([c]) == if IsSpace(c) then [] else [c]
  {
    assert [c][1..] == [];
  }

  /** `s.includes(t)`. The empty string is contained in every string. */
  predicate Contains(s: string, t: string) {
    exists i :: 0 <= i <= |s| && t <= s[i..]
  }

  /** `s.split(/[class]/)` where `isSep` recognises the class: the pieces between
      separator characters, one more piece than there are separators. */
  function Split(s: string, isSep: char -> bool): (r: seq<string>)
    ensures |r| >= 1
    ensures forall k :: 0 <= k < |r| ==> forall i :: 0 <= i < |r[k]| ==> !isSep(r[k][i])
  {
    if s == [] then [""]
    else
      var rest := Split(s[1..], isSep);
      if isSep(s[0]) then [""] + rest
      else [[s[0]] + rest[0]] + rest[1..]
  }

  /** The number of separator characters in `s`. */
  function SeparatorCount(s: string, isSep: char -> bool): nat {
    if s == [] then 0 else (if isSep(s[0]) then 1 else 0) + SeparatorCount(s[1..], isSep)
  }

  /** Splitting yields one more piece than there are separators. */
  lemma {:induction false} SplitPieceCount(s: string, isSep: char -> bool)
    ensures |Split(s, isSep)| == SeparatorCount(s, isSep) + 1
    decreases |s|
  {
    if s != [] {
      SplitPieceCount(s[1..], isSep);
    }
  }

  /** `parts.join(sep)`. */
  function Join(parts: seq<string>, sep: string): string {
    if parts == [] then ""
    else if |parts| == 1 then parts[0]
    else parts[0] + sep + Join(parts[1..], sep)
  }

  /** Splitting on a separator and joining with it gives back the original text. */
  lemma {:induction false} JoinSplit(s: string, c: char)
    ensures Join(Split(s, x => x == c), [c]) == s
  {
    if s != [] {
      JoinSplit(s[1..], c);
      var rest := Split(s[1..], x => x == c);
      if s[0] == c {
        assert s == [c] + Join(rest, [c]);
      } else if |rest| == 1 {
        assert s == [s[0]] + rest[0];
      } else {
        assert Join(rest, [c]) == rest[0] + [c] + Join(rest[1..], [c]);
        assert s == [s[0]] + rest[0] + [c] + Join(rest[1..], [c]);
      }
    }
  }

  /** A string without any separator is a single piece. */
  lemma {:induction false} SplitWithoutSeparator(s: string, isSep: char -> bool)
    requires forall i :: 0 <= i < |s| ==> !isSep(s[i])
    ensures Split(s, isSep) == [s]
  {
    if s != [] {
      SplitWithoutSeparator(s[1..], isSep);
      var rest := Split(s[1..], isSep);
      assert [s[0]] + rest[0] == s;
    }
  }

  /** Splitting at one separator character splits the two sides independently. */
  lemma {:induction false} SplitAround(a: string, c: char, b: string, isSep: char -> bool)
    requires isSep(c)
    ensures Split(a + [c] + b, isSep) == Split(a, isSep) + Split(b, isSep)
  {
    if a == [] {
      assert a + [c] + b == [c] + b;
      SplitCons(c, b, isSep);
    } else {
      var t := a[1..] + [c] + b;
      assert a + [c] + b == [a[0]] + t;
      assert a == [a[0]] + a[1..];
      SplitAround(a[1..], c, b, isSep);
      SplitCons(a[0], t, isSep);
      SplitCons(a[0], a[1..], isSep);
      if !isSep(a[0]) {
        HeadJoinsAppend([a[0]], Split(a[1..], isSep), Split(b, isSep));
      }
    }
  }

  /** One step of `Split` on a text with a known first character. */
  lemma SplitCons(x: char, t: string, isSep: char -> bool)
    ensures Split([x] + t, isSep)
            == if isSep(x) then [""] + Split(t, isSep)
               else [[x] + Split(t, isSep)[0]] + Split(t, isSep)[1..]
  {
    assert ([x] + t)[1..] == t;
  }

  lemma HeadJoinsAppend(h: string, left: seq<string>, right: seq<string>)
    requires left != []
    ensures [h + (left + right)[0]] + (left + right)[1..] == ([h + left[0]] + left[1..]) + right
  {
    assert (left + right)[0] == left[0];
    assert (left + right)[1..] == left[1..] + right;
  }

  /** Joining two non-empty lists puts one separator between their joins. */
  lemma {:induction false} JoinAppend(xs: seq<string>, ys: seq<string>, sep: string)
    requires xs != [] && ys != []
    ensures Join(xs + ys, sep) == Join(xs, sep) + sep + Join(ys, sep)
  {
    if |xs| > 1 {
      JoinAppend(xs[1..], ys, sep);
      assert (xs + ys)[1..] == xs[1..] + ys;
    } else {
      assert (xs + ys)[1..] == ys;
    }
  }

  /** Pieces without the separator are split back out of their join. */
  lemma {:induction false} SplitJoin(parts: seq<string>, c: char, isSep: char -> bool)
    requires parts != [] && isSep(c)
    requires forall k :: 0 <= k < |parts| ==> forall i :: 0 <= i < |parts[k]| ==> !isSep(parts[k][i])
    ensures Split(Join(parts, [c]), isSep) == parts
  {
    SplitWithoutSeparator(parts[0], isSep);
    if |parts| > 1 {
      SplitJoin(parts[1..], c, isSep);
      SplitAround(parts[0], c, Join(parts[1..], [c]), isSep);
      assert [parts[0]] + parts[1..] == parts;
    }
  }

  /** `.filter(Boolean)` on a list of strings: the non-empty ones, in order. */
  function NonEmpty(parts: seq<string>): (r: seq<string>)
    ensures |r| <= |parts|
    ensures forall k :: 0 <= k < |r| ==> r[k] != []
  {
    if parts == [] then []
    else if parts[0] == [] then NonEmpty(parts[1..])
    else [parts[0]] + NonEmpty(parts[1..])
  }

  /** The filter keeps exactly the non-empty pieces: nothing else, and none of them lost. */
  lemma {:induction false} NonEmptyMembers(parts: seq<string>)
    ensures forall p :: p in NonEmpty(parts) <==> p in parts && p != []
  {
    if parts != [] {
      NonEmptyMembers(parts[1..]);
      assert forall p :: p in parts <==> p == parts[0] || p in parts[1..];
    }
  }

  /** `s.split(/\s+/).filter(Boolean)`: the maximal runs of non-space characters. */
  function Words(s: string): (r: seq<string>)
    ensures forall k :: 0 <= k < |r| ==> r[k] != []
  {
    NonEmpty(Split(s, IsSpace))
  }

  /** Every word is free of white space and every word is a piece of the split. */
  lemma WordsHaveNoSpace(s: string)
    ensures forall w :: w in Words(s) ==> w != [] && NoSpace(w) && w in Split(s, IsSpace)
  {
    NonEmptyMembers(Split(s, IsSpace));
  }

  /** A string with no white space at all is a single piece of the split, and so a
      single word, or none when it is empty. */
  lemma {:induction false} WordsOfNoSpace(s: string)
    requires NoSpace(s)
    ensures Split(s, IsSpace) == [s]
    ensures Words(s) == if s == [] then [] else [s]
  {
    if s != [] {
      WordsOfNoSpace(s[1..]);
      assert s == [s[0]] + s[1..];
    }
    assert NonEmpty([s]) == if s == [] then [] else [s] by {
      assert [s][1..] == [];
    }
  }

  /** `s || fallback` on strings: the empty string is falsy. */
  function OrElse(s: string, fallback: string): (r: string)
    ensures r == (if s == "" then fallback else s)
  {
    if s == "" then fallback else s
  }

  function DigitChar(d: nat): char
    requires d < 10
  {
    ('0' as int + d) as char
  }

  /** Decimal rendering of a natural number, as a template literal shows it. */
  function NatToString(n: nat): (r: string)
    ensures r != [] && forall i :: 0 <= i < |r| ==> '0' <= r[i] <= '9'
    decreases n
  {
    if n < 10 then [DigitChar(n)] else NatToString(n / 10) + [DigitChar(n % 10)]
  }
}
