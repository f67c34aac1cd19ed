/** The parts of Go's `strings` package that stored lists rely on: trimming, splitting and joining. */
module Text {
  /** The characters `unicode.IsSpace` accepts. */
  const SPACES: set<char> := {
    '\t', '\n', '\U{000B}', '\U{000C}', '\r', ' ', '\U{0085}', '\U{00A0}', '\U{1680}',
    '\U{2000}', '\U{2001}', '\U{2002}', '\U{2003}', '\U{2004}', '\U{2005}', '\U{2006}', '\U{2007}',
    '\U{2008}', '\U{2009}', '\U{200A}', '\U{2028}', '\U{2029}', '\U{202F}', '\U{205F}', '\U{3000}'}

  function TrimLeft(s: string, cut: set<char>): (r: string) {
    if s != "" && s[0] in cut then TrimLeft(s[1..], cut) else s
  }

  function TrimRight(s: string, cut: set<char>): (r: string) {
    if s != "" && s[|s| - 1] in cut then TrimRight(s[..|s| - 1], cut) else s
  }

  /** `strings.Trim(s, cutset)`. */
  function Trim(s: string, cut: set<char>): (r: string) {
    TrimRight(TrimLeft(s, cut), cut)
  }

  function TrimSpace(s: string): (r: string) {
    Trim(s, SPACES)
  }

  predicate Trimmed(s: string, cut: set<char>) {
    s == "" || (s[0] !in cut && s[|s| - 1] !in cut)
  }

  lemma {:induction false} TrimLeftFacts(s: string, cut: set<char>)
    ensures var r := TrimLeft(s, cut); r == "" || r[0] !in cut
    ensures exists i :: 0 <= i <= |s| && TrimLeft(s, cut) == s[i..]
  {
    if s != "" && s[0] in cut {
      TrimLeftFacts(s[1..], cut);
      var i :| 0 <= i <= |s[1..]| && TrimLeft(s[1..], cut) == s[1..][i..];
      assert s[1..][i..] == s[i + 1..];
    } else {
      assert s == s[0..];
    }
  }

  lemma {:induction false} TrimRightFacts(s: string, cut: set<char>)
    ensures var r := TrimRight(s, cut); r == "" || r[|r| - 1] !in cut
    ensures exists i :: 0 <= i <= |s| && TrimRight(s, cut) == s[..i]
  {
    if s != "" && s[|s| - 1] in cut {
      TrimRightFacts(s[..|s| - 1], cut);
      var i :| 0 <= i <= |s| - 1 && TrimRight(s[..|s| - 1], cut) == s[..|s| - 1][..i];
      assert s[..|s| - 1][..i] == s[..i];
    } else {
      assert s == s[..|s|];
    }
  }

  /** The result of a trim is a slice with no cut character at either end; trimming it again changes nothing. */
  lemma TrimIsTrimmed(s: string, cut: set<char>)
    ensures Trimmed(Trim(s, cut), cut)
    ensures Trim(Trim(s, cut), cut) == Trim(s, cut)
    ensures forall c :: c in Trim(s, cut) ==> c in s
  {
    var l := TrimLeft(s, cut);
    TrimLeftFacts(s, cut);
    TrimRightFacts(l, cut);
    TrimmedIsFixed(Trim(s, cut), cut);
  }

  /** What a trim takes away at either end consists of cut characters. */
  lemma TrimSplits(s: string, cut: set<char>) returns (front: string, back: string)
    ensures s == front + Trim(s, cut) + back
    ensures (forall i :: 0 <= i < |front| ==> front[i] in cut) && forall i :: 0 <= i < |back| ==> back[i] in cut
  {
    front := LeftSplits(s, cut);
    back := RightSplits(TrimLeft(s, cut), cut);
  }

  lemma {:induction false} LeftSplits(s: string, cut: set<char>) returns (front: string)
    ensures s == front + TrimLeft(s, cut) && forall i :: 0 <= i < |front| ==> front[i] in cut
  {
    front := "";
    if s != "" && s[0] in cut {
      front := LeftSplits(s[1..], cut);
      assert s == [s[0]] + s[1..];
      front := [s[0]] + front;
    }
  }

  lemma {:induction false} RightSplits(s: string, cut: set<char>) returns (back: string)
    ensures s == TrimRight(s, cut) + back && forall i :: 0 <= i < |back| ==> back[i] in cut
  {
    back := "";
    if s != "" && s[|s| - 1] in cut {
      back := RightSplits(s[..|s| - 1], cut);
      assert s == s[..|s| - 1] + [s[|s| - 1]];
      back := back + [s[|s| - 1]];
    }
  }

  lemma TrimmedIsFixed(s: string, cut: set<char>)
    requires Trimmed(s, cut)
    ensures Trim(s, cut) == s
  {
  }

  /** One step of `Split`: put a character in front of the pieces of the rest. */
  function Prepend(c: char, sep: char, rest: seq<string>): (parts: seq<string>)
    requires rest != []
    ensures parts != []
  {
    if c == sep then [""] + rest else [[c] + rest[0]] + rest[1..]
  }

  /** `strings.Split(s, sep)` for a one-character separator. */
  function Split(s: string, sep: char): (parts: seq<string>)
    ensures |parts| >= 1
  {
    if s == "" then [""]
    else
      Prepend(s[0], sep, Split(s[1..], sep))
  }

  /** `strings.Join(parts, sep)`. */
  function Join(parts: seq<string>, sep: char): (s: string) {
    if parts == [] then ""
    else if |parts| == 1 then parts[0]
    else parts[0] + [sep] + Join(parts[1..], sep)
  }

  lemma {:induction false} SplitPieces(s: string, sep: char)
    ensures forall p :: p in Split(s, sep) ==> sep !in p
    ensures Join(Split(s, sep), sep) == s
  {
    if s != "" {
      SplitPieces(s[1..], sep);
      var rest := Split(s[1..], sep);
      if s[0] == sep {
        assert ([""] + rest)[1..] == rest;
      } else {
        var parts := [[s[0]] + rest[0]] + rest[1..];
        assert parts[1..] == rest[1..];
        assert Join(parts, sep) == [s[0]] + Join(rest, sep);
      }
    }
  }

  lemma PrependAgrees(c: char, sep: char, x: seq<string>, y: seq<string>)
    requires x != []
    ensures Prepend(c, sep, x + y) == Prepend(c, sep, x) + y
  {
    assert (x + y)[1..] == x[1..] + y;
  }

  lemma {:induction false} SplitConcat(a: string, b: string, sep: char)
    ensures Split(a + [sep] + b, sep) == Split(a, sep) + Split(b, sep)
  {
    var s := a + [sep] + b;
    if a == "" {
      assert s[1..] == b;
    } else {
      SplitConcat(a[1..], b, sep);
      assert s[1..] == a[1..] + [sep] + b && s[0] == a[0];
      PrependAgrees(s[0], sep, Split(a[1..], sep), Split(b, sep));
    }
  }

  lemma {:induction false} SplitPlain(s: string, sep: char)
    requires sep !in s
    ensures Split(s, sep) == [s]
  {
    if s != "" {
      SplitPlain(s[1..], sep);
      assert s == [s[0]] + s[1..];
    }
  }

  /** The pieces of all parts, in order. */
  function SplitAll(parts: seq<string>, sep: char): (pieces: seq<string>) {
    if parts == [] then [] else Split(parts[0], sep) + SplitAll(parts[1..], sep)
  }

  /** Joining and splitting again breaks every part at the separators it contained. */
  lemma {:induction false} SplitJoin(parts: seq<string>, sep: char)
    requires parts != []
    ensures Split(Join(parts, sep), sep) == SplitAll(parts, sep)
  {
    if |parts| == 1 {
      assert SplitAll(parts[1..], sep) == [];
    } else {
      SplitJoin(parts[1..], sep);
      SplitConcat(parts[0], Join(parts[1..], sep), sep);
    }
  }

  lemma {:induction false} SplitAllPlain(parts: seq<string>, sep: char)
    requires forall p :: p in parts ==> sep !in p
    ensures SplitAll(parts, sep) == parts
  {
    if parts != [] {
      SplitAllPlain(parts[1..], sep);
      SplitPlain(parts[0], sep);
    }
  }

  lemma {:induction false} SplitAllMembers(parts: seq<string>, sep: char, piece: string)
    ensures piece in SplitAll(parts, sep) <==> exists p :: p in parts && piece in Split(p, sep)
  {
    if parts != [] {
      SplitAllMembers(parts[1..], sep, piece);
      assert parts == [parts[0]] + parts[1..];
      if piece in Split(parts[0], sep) {
        assert parts[0] in parts;
      }
    }
  }

  lemma EmptyOrMember<T>(xs: seq<T>)
    ensures xs == [] || exists x :: x in xs
  {
    if xs != [] {
      assert xs[0] in xs;
    }
  }

  predicate NoRepeats<T(==)>(xs: seq<T>) {
    forall i, j :: 0 <= i < j < |xs| ==> xs[i] != xs[j]
  }

  /** Inserting an element in the middle. */
  function Inserted<T>(xs: seq<T>, i: nat, x: T): (r: seq<T>)
    requires i <= |xs|
    ensures |r| == |xs| + 1
    ensures forall j :: 0 <= j < |r| ==> r[j] == if j < i then xs[j] else if j == i then x else xs[j - 1]
  {
    xs[..i] + [x] + xs[i..]
  }

  lemma InsertedMembers<T>(xs: seq<T>, i: nat, x: T)
    requires i <= |xs|
    ensures forall y :: y in Inserted(xs, i, x) <==> y in xs || y == x
  {
    assert xs == xs[..i] + xs[i..];
  }
}
