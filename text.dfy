/** Character classes and the string transforms the normalisers are built from.
    Case mapping, letters, digits and punctuation follow Python's rules restricted to
    ASCII; whitespace is Python's full `str.isspace()` set, which is also what `re`'s
    `\s` matches on text. */
module Text {

  predicate IsSpace(c: char) {
    var n := c as int;
    (9 <= n <= 13) || (28 <= n <= 32) || n == 0x85 || n == 0xA0 || n == 0x1680
    || (0x2000 <= n <= 0x200A) || n == 0x2028 || n == 0x2029 || n == 0x202F
    || n == 0x205F || n == 0x3000
  }

  predicate IsUpper(c: char) { 'A' <= c <= 'Z' }
  predicate IsLower(c: char) { 'a' <= c <= 'z' }
  predicate IsAlpha(c: char) { IsUpper(c) || IsLower(c) }
  predicate IsDigit(c: char) { '0' <= c <= '9' }
  predicate IsAlnum(c: char) { IsAlpha(c) || IsDigit(c) }

  /** Python's `string.punctuation`: the 32 ASCII punctuation characters. */
  predicate IsPunct(c: char) {
    var n := c as int;
    (33 <= n <= 47) || (58 <= n <= 64) || (91 <= n <= 96) || (123 <= n <= 126)
  }

  function LowerChar(c: char): (d: char)
    ensures IsSpace(d) <==> IsSpace(c)
    ensures !IsUpper(d)
    ensures IsAlpha(d) <==> IsAlpha(c)
  {
    if IsUpper(c) then (c as int + 32) as char else c
  }

  function UpperChar(c: char): (d: char)
    ensures IsSpace(d) <==> IsSpace(c)
    ensures !IsLower(d)
  {
    if IsLower(c) then (c as int - 32) as char else c
  }

  function Lower(s: string): (r: string)
    ensures |r| == |s|
    ensures forall i :: 0 <= i < |s| ==> r[i] == LowerChar(s[i])
  {
    seq(|s|, i requires 0 <= i < |s| => LowerChar(s[i]))
  }

  predicate NoUpper(s: string) {
    forall i :: 0 <= i < |s| ==> !IsUpper(s[i])
  }

  lemma LowerOfNoUpper(s: string)
    requires NoUpper(s)
    ensures Lower(s) == s
  {
  }

  /** `s.replace(a, b)` for single characters. */
  function Replace(s: string, a: char, b: char): (r: string)
    ensures |r| == |s|
    ensures forall i :: 0 <= i < |s| ==> r[i] == (if s[i] == a then b else s[i])
  {
    seq(|s|, i requires 0 <= i < |s| => if s[i] == a then b else s[i])
  }

  /** Every character satisfying `p` becomes a space (a `str.translate` table or a regex class). */
  function SpaceOut(s: string, p: char -> bool): (r: string)
    ensures |r| == |s|
    ensures forall i :: 0 <= i < |s| ==> r[i] == (if p(s[i]) then ' ' else s[i])
  {
    seq(|s|, i requires 0 <= i < |s| => if p(s[i]) then ' ' else s[i])
  }

  /** Python's `s.lstrip()`. */
  function SkipSpaces(s: string): (r: string)
    ensures |r| <= |s|
    ensures s != [] && IsSpace(s[0]) ==> |r| < |s|
  {
    if s != [] && IsSpace(s[0]) then SkipSpaces(s[1..]) else s
  }

  /** What `lstrip` removes is a whitespace prefix, and what it leaves starts with a non-space. */
  lemma {:induction false} SkipSpacesShape(s: string)
    ensures SkipSpaces(s) == s[|s| - |SkipSpaces(s)|..]
    ensures SkipSpaces(s) == [] || !IsSpace(SkipSpaces(s)[0])
    ensures forall i :: 0 <= i < |s| - |SkipSpaces(s)| ==> IsSpace(s[i])
    decreases |s|
  {
    if s != [] && IsSpace(s[0]) {
      SkipSpacesShape(s[1..]);
    }
  }

  /** Python's `s.rstrip()`. */
  function DropTrailingSpaces(s: string): (r: string)
    ensures |r| <= |s| && r == s[..|r|]
    ensures r == [] || !IsSpace(r[|r| - 1])
    ensures forall i :: |r| <= i < |s| ==> IsSpace(s[i])
  {
    if s != [] && IsSpace(s[|s| - 1]) then DropTrailingSpaces(s[..|s| - 1]) else s
  }

  /** Python's `s.strip()`: no whitespace at either end. */
  function Strip(s: string): (r: string)
    ensures r == [] || (!IsSpace(r[0]) && !IsSpace(r[|r| - 1]))
    ensures |r| <= |s|
  {
    SkipSpacesShape(s);
    DropTrailingSpaces(SkipSpaces(s))
  }

  /** Python's `s.strip(ch)` for one character. */
  function StripChar(s: string, ch: char): (r: string)
    ensures r == [] || (r[0] != ch && r[|r| - 1] != ch)
    decreases |s|
  {
    if s != [] && s[0] == ch then StripChar(s[1..], ch)
    else if s != [] && s[|s| - 1] == ch then StripChar(s[..|s| - 1], ch)
    else s
  }

  /** The only whitespace is the plain space, there is no trailing space and no two spaces are adjacent. */
  predicate Tidy(t: string) {
    (forall i :: 0 <= i < |t| ==> IsSpace(t[i]) ==> t[i] == ' ')
    && (t != [] ==> t[|t| - 1] != ' ')
    && (forall i :: 0 <= i < |t| - 1 ==> t[i] == ' ' ==> t[i + 1] != ' ')
  }

  /** Words separated by single spaces, no whitespace at either end: the shape of `" ".join(s.split())`. */
  predicate Collapsed(t: string) {
    Tidy(t) && (t == [] || t[0] != ' ')
  }

  /** Prepending one character keeps text tidy when it is a non-space, or a space before a non-space. */
  lemma TidyCons(c: char, t: string)
    requires Tidy(t)
    requires !IsSpace(c) || (c == ' ' && t != [] && t[0] != ' ')
    ensures Tidy([c] + t)
  {
    var u := [c] + t;
    forall i | 0 <= i < |u| && IsSpace(u[i]) ensures u[i] == ' ' {
      if i > 0 { assert u[i] == t[i - 1]; }
    }
    forall i | 0 <= i < |u| - 1 && u[i] == ' ' ensures u[i + 1] != ' ' {
      if i > 0 { assert u[i] == t[i - 1] && u[i + 1] == t[i]; }
    }
  }

  function CollapseTail(s: string): string
    decreases |s|
  {
    if s == [] then []
    else if IsSpace(s[0]) then
      var rest := SkipSpaces(s);
      if rest == [] then [] else [' '] + CollapseTail(rest)
    else [s[0]] + CollapseTail(s[1..])
  }

  lemma {:induction false} CollapseTailShape(s: string)
    ensures Tidy(CollapseTail(s))
    ensures s != [] && !IsSpace(s[0]) ==> CollapseTail(s) != [] && CollapseTail(s)[0] == s[0]
    ensures forall i :: 0 <= i < |CollapseTail(s)| ==> CollapseTail(s)[i] == ' ' || CollapseTail(s)[i] in s
    decreases |s|
  {
    if s == [] {
    } else if IsSpace(s[0]) {
      var rest := SkipSpaces(s);
      SkipSpacesShape(s);
      if rest != [] {
        CollapseTailShape(rest);
        assert forall c :: c in rest ==> c in s by {
          assert rest == s[|s| - |rest|..];
        }
        TidyCons(' ', CollapseTail(rest));
      }
    } else {
      CollapseTailShape(s[1..]);
      assert forall c :: c in s[1..] ==> c in s;
      TidyCons(s[0], CollapseTail(s[1..]));
    }
  }

  /** Dropping the first character keeps text tidy. */
  lemma TidyTail(t: string)
    requires Tidy(t) && t != []
    ensures Tidy(t[1..])
  {
    var u := t[1..];
    forall i | 0 <= i < |u| && IsSpace(u[i]) ensures u[i] == ' ' {
      assert u[i] == t[i + 1];
    }
    forall i | 0 <= i < |u| - 1 && u[i] == ' ' ensures u[i + 1] != ' ' {
      assert u[i] == t[i + 1] && u[i + 1] == t[i + 2];
    }
  }

  /** Python's `" ".join(s.split())`, which equals `re.sub(r"\s+", " ", s).strip()`. */
  function Collapse(s: string): string {
    CollapseTail(SkipSpaces(s))
  }

  /** Collapsed output; every character is a space or comes from the input. */
  lemma CollapseShape(s: string)
    ensures Collapsed(Collapse(s))
    ensures forall i :: 0 <= i < |Collapse(s)| ==> Collapse(s)[i] == ' ' || Collapse(s)[i] in s
  {
    var t := SkipSpaces(s);
    SkipSpacesShape(s);
    assert forall c :: c in t ==> c in s by {
      assert t == s[|s| - |t|..];
    }
    CollapseTailShape(t);
  }

  lemma {:induction false} CollapseTailOfTidy(t: string)
    requires Tidy(t)
    ensures CollapseTail(t) == t
    decreases |t|
  {
    if t == [] {
    } else if t[0] == ' ' {
      assert |t| >= 2 && t[1] != ' ';
      assert !IsSpace(t[1]);
      assert SkipSpaces(t) == SkipSpaces(t[1..]) == t[1..];
      TidyTail(t);
      CollapseTailOfTidy(t[1..]);
      assert t == [' '] + t[1..];
    } else {
      assert !IsSpace(t[0]);
      TidyTail(t);
      CollapseTailOfTidy(t[1..]);
      assert t == [t[0]] + t[1..];
    }
  }

  /** Collapsing is the identity on collapsed text, hence idempotent. */
  lemma CollapseOfCollapsed(t: string)
    requires Collapsed(t)
    ensures Collapse(t) == t
  {
    assert t == [] || !IsSpace(t[0]);
    assert SkipSpaces(t) == t;
    CollapseTailOfTidy(t);
  }

  lemma CollapseIdempotent(s: string)
    ensures Collapse(Collapse(s)) == Collapse(s)
  {
    CollapseShape(s);
    CollapseOfCollapsed(Collapse(s));
  }

  /** Lower-casing does not create or remove spaces, so it keeps text collapsed. */
  lemma LowerKeepsCollapsed(t: string)
    requires Collapsed(t)
    ensures Collapsed(Lower(t))
  {
  }

  predicate IsPrefix(p: string, s: string) {
    |p| <= |s| && s[..|p|] == p
  }

  /** Python's substring test `sub in s`; the empty string is in every string. */
  predicate Contains(s: string, sub: string)
    decreases |s|
  {
    IsPrefix(sub, s) || (s != [] && Contains(s[1..], sub))
  }

  lemma {:induction false} ContainsNoLonger(s: string, sub: string)
    requires Contains(s, sub)
    ensures |sub| <= |s|
    decreases |s|
  {
    if !IsPrefix(sub, s) {
      ContainsNoLonger(s[1..], sub);
    }
  }

  /** Python's `sep.join(parts)`. */
  function Join(sep: string, parts: seq<string>): (r: string)
    decreases |parts|
  {
    if parts == [] then ""
    else if |parts| == 1 then parts[0]
    else parts[0] + sep + Join(sep, parts[1..])
  }

  /** Python's `s[:n]` for a non-negative `n`. */
  function Take(s: string, n: nat): (r: string)
    ensures |r| <= n && IsPrefix(r, s)
    ensures |s| <= n ==> r == s
  {
    if |s| <= n then s else s[..n]
  }

  /** Python's `str.title()` on ASCII: a letter is upper-cased when the character before
      it is not a letter, and lower-cased otherwise; other characters are unchanged. */
  function Title(s: string): (r: string)
    ensures |r| == |s|
    ensures forall i :: 0 <= i < |s| && !IsAlpha(s[i]) ==> r[i] == s[i]
  {
    seq(|s|, i requires 0 <= i < |s| =>
      if !IsAlpha(s[i]) then s[i]
      else if i > 0 && IsAlpha(s[i - 1]) then LowerChar(s[i])
      else UpperChar(s[i]))
  }

  /** Python's `" ".join(w.capitalize() for w in t.split())` on collapsed text `t`:
      the first character of each word is upper-cased and the rest lower-cased. */
  function CapitalizeWords(t: string): (r: string)
    ensures |r| == |t|
  {
    seq(|t|, i requires 0 <= i < |t| =>
      if i == 0 || t[i - 1] == ' ' then UpperChar(t[i]) else LowerChar(t[i]))
  }

  /** Capitalising words changes case only. */
  lemma CapitalizeWordsLower(t: string)
    ensures Lower(CapitalizeWords(t)) == Lower(t)
  {
    var r := CapitalizeWords(t);
    forall i | 0 <= i < |t| ensures LowerChar(r[i]) == LowerChar(t[i]) {
    }
  }
}
