/** Trimming and lower-casing, on ASCII. */
module Text {
  predicate IsSpace(c: char) {
    c == ' ' || c == '\t' || c == '\n' || c == '\r' || c == 11 as char || c == 12 as char
  }

  function TrimLeft(s: string): (r: string)
    ensures r != [] ==> !IsSpace(r[0])
    ensures s != [] && !IsSpace(s[0]) ==> r == s
  {
    if s != [] && IsSpace(s[0]) then TrimLeft(s[1..]) else s
  }

  function TrimRight(s: string): (r: string)
    ensures r != [] ==> !IsSpace(r[|r| - 1]) && s != [] && r[0] == s[0]
    ensures s != [] && !IsSpace(s[|s| - 1]) ==> r == s
  {
    if s != [] && IsSpace(s[|s| - 1]) then TrimRight(s[..|s| - 1]) else s
  }

  function Trim(s: string): (r: string)
    ensures r != [] ==> !IsSpace(r[0]) && !IsSpace(r[|r| - 1])
  {
    TrimRight(TrimLeft(s))
  }

  lemma TrimIsIdempotent(s: string)
    ensures Trim(Trim(s)) == Trim(s)
  {
  }

  function LowerChar(c: char): (r: char)
    ensures !('A' <= r <= 'Z') && (!('A' <= c <= 'Z') ==> r == c)
    ensures IsSpace(r) <==> IsSpace(c)
  {
    if 'A' <= c <= 'Z' then (c as int + 32) as char else c
  }

  function ToLower(s: string): (r: string)
    ensures |r| == |s| && forall i :: 0 <= i < |s| ==> r[i] == LowerChar(s[i])
  {
    seq(|s|, i requires 0 <= i < |s| => LowerChar(s[i]))
  }

  /** Lower-casing after trimming is a normal form: doing it twice changes nothing. */
  function Slug(s: string): string {
    ToLower(Trim(s))
  }

  lemma SlugIsIdempotent(s: string)
    ensures Slug(Slug(s)) == Slug(s)
  {
    var r := Slug(s);
    assert Trim(r) == r;
    assert ToLower(r) == r;
  }

  // --- What trimming and lower-casing mean ---

  const SPACES: set<char> := {' ', '\t', '\n', 11 as char, 12 as char, '\r'}

  predicate Spaces(s: string) {
    forall c <- s :: c in SPACES
  }

  /** Of `s`, the part from `a` to `b` is left when the leading and trailing spaces are cut off. */
  predicate Cuts(s: string, a: int, b: int) {
    && 0 <= a <= b <= |s| && Spaces(s[..a]) && Spaces(s[b..])
    && (a < b ==> s[a] !in SPACES && s[b - 1] !in SPACES)
  }

  /** `t` is the text of `s` between its leading and trailing spaces. */
  ghost predicate Between(s: string, t: string) {
    exists a, b :: Cuts(s, a, b) && t == s[a..b]
  }

  lemma {:induction false} TrimLeftCuts(s: string) returns (a: nat)
    ensures a <= |s| && TrimLeft(s) == s[a..] && Spaces(s[..a])
  {
    if s != [] && IsSpace(s[0]) {
      var k := TrimLeftCuts(s[1..]);
      a := k + 1;
      assert s[..a] == [s[0]] + s[1..][..k];
    } else {
      a := 0;
    }
  }

  lemma {:induction false} TrimRightCuts(s: string) returns (b: nat)
    ensures b <= |s| && TrimRight(s) == s[..b] && Spaces(s[b..])
  {
    if s != [] && IsSpace(s[|s| - 1]) {
      b := TrimRightCuts(s[..|s| - 1]);
      assert s[b..] == s[..|s| - 1][b..] + [s[|s| - 1]];
    } else {
      b := |s|;
    }
  }

  lemma CutTwice(s: string, a: nat, b: nat)
    requires a <= |s| && b <= |s[a..]| && Spaces(s[..a]) && Spaces(s[a..][b..])
    requires s[a..][..b] != "" ==> s[a..][..b][0] !in SPACES && s[a..][..b][b - 1] !in SPACES
    ensures Between(s, s[a..][..b])
  {
    assert s[a..][..b] == s[a..a + b] && s[a..][b..] == s[a + b..];
    assert Cuts(s, a, a + b);
  }

  /** Trimming cuts off the leading and trailing spaces, all of them and nothing else. */
  lemma TrimIsBetween(s: string)
    ensures Between(s, Trim(s))
  {
    var a := TrimLeftCuts(s);
    var b := TrimRightCuts(TrimLeft(s));
    CutTwice(s, a, b);
  }

  /** A character that is not a space is neither before nor behind the text. */
  lemma NotCutOff(s: string, i: nat)
    requires i < |s| && s[i] !in SPACES
    ensures forall n :: i < n <= |s| ==> !Spaces(s[..n])
    ensures forall n :: 0 <= n <= i ==> !Spaces(s[n..])
  {
    forall n | i < n <= |s| ensures !Spaces(s[..n]) {
      assert s[..n][i] in s[..n];
    }
    forall n | 0 <= n <= i ensures !Spaces(s[n..]) {
      assert s[n..][i - n] in s[n..];
    }
  }

  lemma CutsAreUnique(s: string, a: int, b: int, c: int, d: int)
    requires Cuts(s, a, b) && Cuts(s, c, d)
    ensures (a == b && c == d) || (a == c && b == d)
  {
    if a < b {
      NotCutOff(s, a);
      NotCutOff(s, b - 1);
    }
    if c < d {
      NotCutOff(s, c);
      NotCutOff(s, d - 1);
    }
  }

  /** A string has one text between its outer spaces. */
  lemma BetweenIsUnique(s: string, t: string, u: string)
    requires Between(s, t) && Between(s, u)
    ensures t == u
  {
    var a, b :| Cuts(s, a, b) && t == s[a..b];
    var c, d :| Cuts(s, c, d) && u == s[c..d];
    CutsAreUnique(s, a, b, c, d);
  }

  /** `a` is an upper-case letter, and `b` the lower-case letter at the same place of the alphabet. */
  predicate UpperOf(a: char, b: char) {
    'A' <= a <= 'Z' && 'a' <= b <= 'z' && a as int - 'A' as int == b as int - 'a' as int
  }

  predicate SameLetter(a: char, b: char) {
    a == b || UpperOf(a, b) || UpperOf(b, a)
  }

  predicate EqualUpToCase(s: string, t: string) {
    |s| == |t| && forall i :: 0 <= i < |s| ==> SameLetter(s[i], t[i])
  }

  lemma LowerCharMeans(a: char, b: char)
    ensures LowerChar(a) == LowerChar(b) <==> SameLetter(a, b)
    ensures SameLetter(a, LowerChar(a))
  {
  }

  /** Lower-casing identifies exactly the strings that differ in the case of letters only. */
  lemma ToLowerMeans(s: string, t: string)
    ensures ToLower(s) == ToLower(t) <==> EqualUpToCase(s, t)
    ensures EqualUpToCase(s, ToLower(s))
  {
    forall i | 0 <= i < |s| && i < |t|
      ensures ToLower(s)[i] == ToLower(t)[i] <==> SameLetter(s[i], t[i])
    {
      LowerCharMeans(s[i], t[i]);
    }
    forall i | 0 <= i < |s| ensures SameLetter(s[i], ToLower(s)[i]) {
      LowerCharMeans(s[i], s[i]);
    }
    if ToLower(s) == ToLower(t) {
      assert |s| == |t|;
    }
  }

  /** The same word: equal up to case between their outer spaces. */
  ghost predicate SameWord(s: string, t: string) {
    exists x, y :: Between(s, x) && Between(t, y) && EqualUpToCase(x, y)
  }

  lemma SlugsMeanWords(s: string, t: string)
    ensures Slug(s) == Slug(t) <==> SameWord(s, t)
  {
    TrimIsBetween(s);
    TrimIsBetween(t);
    ToLowerMeans(Trim(s), Trim(t));
    if SameWord(s, t) {
      var x, y :| Between(s, x) && Between(t, y) && EqualUpToCase(x, y);
      BetweenIsUnique(s, x, Trim(s));
      BetweenIsUnique(t, y, Trim(t));
    }
  }

  /** No capital letter and no space at either end. */
  predicate IsClean(s: string) {
    && (forall c <- s :: !('A' <= c <= 'Z'))
    && (s != "" ==> s[0] !in SPACES && s[|s| - 1] !in SPACES)
  }

  lemma SlugsAreClean(s: string)
    ensures IsClean(Slug(s))
    ensures Slug(s) == s <==> IsClean(s)
  {
    var t := Slug(s);
    forall c | c in t ensures !('A' <= c <= 'Z') {
      var i :| 0 <= i < |t| && t[i] == c;
      assert t[i] == LowerChar(Trim(s)[i]);
    }
    if IsClean(s) {
      assert s != "" ==> TrimLeft(s) == s;
      assert Trim(s) == s;
      assert forall i | 0 <= i < |s| :: s[i] in s;
      assert ToLower(s) == s;
    }
  }

  lemma BlankMeans(s: string)
    ensures Slug(s) == "" <==> Between(s, "")
  {
    TrimIsBetween(s);
    if Between(s, "") {
      BetweenIsUnique(s, "", Trim(s));
    }
  }
}
