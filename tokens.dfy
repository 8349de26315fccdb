/** Whitespace handling of the console's input line.

    The console tests a line with `text.strip()` and tokenizes it with
    `text.split()`, both called without a separator. Both use the same
    definition of whitespace: the characters for which Python's
    `str.isspace` holds. A line is split into maximal runs of non-whitespace
    characters; runs of whitespace, leading and trailing whitespace produce
    no empty token.
 */
module Tokens {

  /** The characters Python treats as whitespace in `str.split()` and
      `str.strip()` with no argument. */
  predicate IsSpace(c: char) {
    || ('\t' <= c <= '\r')                  // \t \n \v \f \r
    || ('\U{1c}' <= c <= '\U{1f}')          // file, group, record, unit separators
    || c == ' '
    || c == '\U{85}'                        // next line
    || c == '\U{a0}'                        // no-break space
    || c == '\U{1680}'
    || ('\U{2000}' <= c <= '\U{200a}')
    || c == '\U{2028}' || c == '\U{2029}'
    || c == '\U{202f}' || c == '\U{205f}' || c == '\U{3000}'
  }

  /** `not s.strip()`: the line holds nothing but whitespace. */
  predicate IsBlank(s: string) {
    forall i :: 0 <= i < |s| ==> IsSpace(s[i])
  }

  /** A token as `str.split()` yields it: non-empty, no whitespace inside. */
  predicate IsWord(w: string) {
    w != [] && forall i :: 0 <= i < |w| ==> !IsSpace(w[i])
  }

  /** Number of whitespace characters at the start of `s`. */
  function LeadingSpaces(s: string): (n: nat)
    ensures n <= |s|
    ensures n < |s| ==> !IsSpace(s[n])
  {
    if s == [] || !IsSpace(s[0]) then 0 else 1 + LeadingSpaces(s[1..])
  }

  /** The leading run is all whitespace and stops at a non-whitespace
      character or at the end. */
  lemma {:induction false} LeadingSpacesRun(s: string)
    ensures IsBlank(s[..LeadingSpaces(s)])
  {
    if s != [] && IsSpace(s[0]) {
      LeadingSpacesRun(s[1..]);
      var n := LeadingSpaces(s[1..]);
      assert s[..n + 1] == [s[0]] + s[1..][..n];
    }
  }

  /** Length of the run of non-whitespace characters at the start of `s`. */
  function WordLength(s: string): (n: nat)
    ensures n <= |s|
    ensures n < |s| ==> IsSpace(s[n])
  {
    if s == [] || IsSpace(s[0]) then 0 else 1 + WordLength(s[1..])
  }

  /** The leading word has no whitespace and stops at whitespace or at the
      end. */
  lemma {:induction false} WordLengthRun(s: string)
    ensures forall i :: 0 <= i < WordLength(s) ==> !IsSpace(s[i])
  {
    if s != [] && !IsSpace(s[0]) {
      WordLengthRun(s[1..]);
    }
  }

  /** `s.split()`: the maximal non-whitespace runs of `s`, in order. */
  function Split(s: string): seq<string>
    decreases |s|
  {
    var k := LeadingSpaces(s);
    if k == |s| then []
    else
      var t := s[k..];
      var n := WordLength(t);
      [t[..n]] + Split(t[n..])
  }

  /** Every token is non-empty and free of whitespace. */
  lemma {:induction false} SplitYieldsWords(s: string)
    ensures forall i :: 0 <= i < |Split(s)| ==> IsWord(Split(s)[i])
    decreases |s|
  {
    var k := LeadingSpaces(s);
    if k < |s| {
      var t := s[k..];
      var n := WordLength(t);
      LeadingSpacesRun(s);
      WordLengthRun(t);
      SplitYieldsWords(t[n..]);
      assert Split(s) == [t[..n]] + Split(t[n..]);
    }
  }

  /** There are no tokens exactly when the line is blank, so a non-blank
      line always has a first token. */
  lemma SplitEmptyIffBlank(s: string)
    ensures Split(s) == [] <==> IsBlank(s)
  {
    var k := LeadingSpaces(s);
    LeadingSpacesRun(s);
    if k == |s| {
      assert s[..k] == s;
    }
  }

  /** The tokens joined back with single spaces, the inverse of `Split`. */
  function Join(ws: seq<string>): string {
    if |ws| <= 1 then (if ws == [] then "" else ws[0])
    else ws[0] + " " + Join(ws[1..])
  }

  /** The concatenation of the tokens, with no separators. */
  function Concat(ws: seq<string>): string {
    if ws == [] then "" else ws[0] + Concat(ws[1..])
  }

  /** The characters of `s` that are not whitespace, in order. */
  function NonSpaces(s: string): string {
    if s == [] then "" else (if IsSpace(s[0]) then "" else [s[0]]) + NonSpaces(s[1..])
  }

  lemma {:induction false} NonSpacesAppend(a: string, b: string)
    ensures NonSpaces(a + b) == NonSpaces(a) + NonSpaces(b)
  {
    if a == [] {
      assert a + b == b;
    } else {
      var head := if IsSpace(a[0]) then "" else [a[0]];
      assert (a + b)[0] == a[0] && (a + b)[1..] == a[1..] + b;
      assert NonSpaces(a + b) == head + NonSpaces(a[1..] + b);
      NonSpacesAppend(a[1..], b);
      assert head + (NonSpaces(a[1..]) + NonSpaces(b)) == (head + NonSpaces(a[1..])) + NonSpaces(b);
    }
  }

  lemma {:induction false} NonSpacesOfBlank(s: string)
    requires IsBlank(s)
    ensures NonSpaces(s) == ""
  {
    if s != [] { NonSpacesOfBlank(s[1..]); }
  }

  lemma {:induction false} NonSpacesOfWord(w: string)
    requires forall i :: 0 <= i < |w| ==> !IsSpace(w[i])
    ensures NonSpaces(w) == w
  {
    if w != [] {
      NonSpacesOfWord(w[1..]);
      assert [w[0]] + w[1..] == w;
    }
  }

  /** Splitting loses only whitespace: gluing the tokens back together
      gives exactly the non-whitespace characters of the line, in order. */
  lemma {:induction false} SplitKeepsEveryOtherCharacter(s: string)
    ensures Concat(Split(s)) == NonSpaces(s)
    decreases |s|
  {
    var k := LeadingSpaces(s);
    LeadingSpacesRun(s);
    assert s == s[..k] + s[k..];
    NonSpacesAppend(s[..k], s[k..]);
    NonSpacesOfBlank(s[..k]);
    if k < |s| {
      var t := s[k..];
      var n := WordLength(t);
      WordLengthRun(t);
      assert t == t[..n] + t[n..];
      NonSpacesAppend(t[..n], t[n..]);
      NonSpacesOfWord(t[..n]);
      SplitKeepsEveryOtherCharacter(t[n..]);
      assert Split(s) == [t[..n]] + Split(t[n..]);
      assert Concat(Split(s)) == t[..n] + Concat(Split(t[n..]));
    } else {
      assert s[k..] == [];
    }
  }

  /** Leading whitespace does not change the tokens. */
  lemma SplitSkipsSpace(c: char, x: string)
    requires IsSpace(c)
    ensures Split([c] + x) == Split(x)
  {
    var s := [c] + x;
    assert s[0] == c && s[1..] == x;
    var k := LeadingSpaces(x);
    assert LeadingSpaces(s) == k + 1;
    assert s[k + 1..] == x[k..];
  }

  /** A word followed by a space or by the end of the line is the first token. */
  lemma {:induction false} SplitWordFirst(w: string, rest: string)
    requires IsWord(w)
    requires rest == [] || IsSpace(rest[0])
    ensures Split(w + rest) == [w] + Split(rest)
  {
    var s := w + rest;
    assert LeadingSpaces(s) == 0;
    assert s[0..] == s;
    WordLengthOfWord(w, rest);
    assert s[..|w|] == w;
    assert s[|w|..] == rest;
  }

  lemma {:induction false} WordLengthOfWord(w: string, rest: string)
    requires forall i :: 0 <= i < |w| ==> !IsSpace(w[i])
    requires rest == [] || IsSpace(rest[0])
    ensures WordLength(w + rest) == |w|
  {
    if w != [] {
      assert (w + rest)[1..] == w[1..] + rest;
      WordLengthOfWord(w[1..], rest);
    }
  }

  /** Round trip: joining well-formed tokens with spaces and splitting the
      result gives the tokens back, in order. */
  lemma {:induction false} SplitJoin(ws: seq<string>)
    requires forall i :: 0 <= i < |ws| ==> IsWord(ws[i])
    ensures Split(Join(ws)) == ws
  {
    if |ws| == 1 {
      SplitWordFirst(ws[0], "");
      assert ws[0] + "" == ws[0];
    } else if |ws| > 1 {
      var w, rest := ws[0], Join(ws[1..]);
      assert Split(Join(ws)) == [w] + Split([' '] + rest) by {
        JoinCons(ws);
        SplitWordFirst(w, [' '] + rest);
      }
      assert Split([' '] + rest) == Split(rest) by {
        SplitSkipsSpace(' ', rest);
      }
      assert Split(rest) == ws[1..] by {
        SplitJoin(ws[1..]);
      }
      assert [w] + ws[1..] == ws;
    }
  }

  lemma JoinCons(ws: seq<string>)
    requires |ws| > 1
    ensures Join(ws) == ws[0] + ([' '] + Join(ws[1..]))
  {
  }
}
