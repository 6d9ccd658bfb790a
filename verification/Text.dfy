/** String helpers of the catalogue, the validators and the usage report. Case folding is
    that of ASCII. */
module Text {
  function LowerChar(c: char): char { if 'A' <= c <= 'Z' then (c as int + 32) as char else c }

  function Lower(s: string): (r: string)
    ensures |r| == |s|
  {
    seq(|s|, i requires 0 <= i < |s| => LowerChar(s[i]))
  }

  predicate EqualFold(a: string, b: string) { Lower(a) == Lower(b) }

  predicate IsSpace(c: char) { c == ' ' || c == '\t' || c == '\n' || c == '\r' || c == '\U{000B}' || c == '\U{000C}' }

  function TrimLeft(s: string): string { if s != "" && IsSpace(s[0]) then TrimLeft(s[1..]) else s }

  function TrimRight(s: string): string {
    if s != "" && IsSpace(s[|s| - 1]) then TrimRight(s[..|s| - 1]) else s
  }

  function TrimSpace(s: string): string { TrimRight(TrimLeft(s)) }

  /** No space at either end. */
  predicate Trimmed(s: string) { s == "" || (!IsSpace(s[0]) && !IsSpace(s[|s| - 1])) }

  lemma {:induction false} TrimRightEnds(s: string)
    ensures TrimRight(s) <= s && (TrimRight(s) != "" ==> !IsSpace(TrimRight(s)[|TrimRight(s)| - 1]))
  {
    if s != "" && IsSpace(s[|s| - 1]) { TrimRightEnds(s[..|s| - 1]); }
  }

  lemma {:induction false} TrimLeftEnds(s: string)
    ensures TrimLeft(s) != "" ==> !IsSpace(TrimLeft(s)[0])
  {
    if s != "" && IsSpace(s[0]) { TrimLeftEnds(s[1..]); }
  }

  lemma TrimSpaceTrims(s: string)
    ensures Trimmed(TrimSpace(s))
    ensures Trimmed(s) ==> TrimSpace(s) == s
  {
    TrimLeftEnds(s);
    TrimRightEnds(TrimLeft(s));
  }

  // ---------------------------------------------------------------- splitting

  function SplitOn(s: string, sep: char): (r: seq<string>)
    ensures |r| >= 1
    ensures forall i :: 0 <= i < |r| ==> sep !in r[i]
  {
    if s == "" then [""]
    else if s[0] == sep then [""] + SplitOn(s[1..], sep)
    else var r := SplitOn(s[1..], sep); [[s[0]] + r[0]] + r[1..]
  }

  lemma {:induction false} SplitOnNone(s: string, sep: char)
    requires sep !in s
    ensures SplitOn(s, sep) == [s]
  {
    if s != "" {
      SplitOnNone(s[1..], sep);
      assert [s[0]] + s[1..] == s;
    }
  }

  lemma {:induction false} SplitOnAt(a: string, sep: char, b: string)
    ensures SplitOn(a + [sep] + b, sep) == SplitOn(a, sep) + SplitOn(b, sep)
  {
    var s := a + [sep] + b;
    if a == "" {
      assert s[1..] == b;
    } else {
      assert s[1..] == a[1..] + [sep] + b;
      SplitOnAt(a[1..], sep, b);
    }
  }

  // ---------------------------------------------------------------- lexicographic order

  predicate Less(a: string, b: string) {
    if b == "" then false
    else if a == "" then true
    else a[0] < b[0] || (a[0] == b[0] && Less(a[1..], b[1..]))
  }

  lemma {:induction false} LessTotal(a: string, b: string)
    ensures Less(a, b) || a == b || Less(b, a)
    ensures Less(a, b) ==> a != b && !Less(b, a)
  {
    if a != "" && b != "" {
      LessTotal(a[1..], b[1..]);
      assert a == [a[0]] + a[1..] && b == [b[0]] + b[1..];
    }
  }

  lemma {:induction false} LessTrans(a: string, b: string, c: string)
    requires Less(a, b) && Less(b, c)
    ensures Less(a, c)
  {
    if a != "" && a[0] == b[0] == c[0] { LessTrans(a[1..], b[1..], c[1..]); }
  }

  // ---------------------------------------------------------------- what these functions mean

  /** The same letter, in either case, or the same other character. */
  predicate SameLetter(x: char, y: char) {
    || x == y
    || ('A' <= x <= 'Z' && 'a' <= y <= 'z' && y as int - x as int == 32)
    || ('a' <= x <= 'z' && 'A' <= y <= 'Z' && x as int - y as int == 32)
  }

  lemma LowerCharExactly(x: char, y: char)
    ensures LowerChar(x) == LowerChar(y) <==> SameLetter(x, y)
  {}

  /** Two texts are equal under folding if and only if they agree letter by letter but for
      case. */
  lemma EqualFoldExactly(a: string, b: string)
    ensures EqualFold(a, b) <==> |a| == |b| && forall i :: 0 <= i < |a| ==> SameLetter(a[i], b[i])
  {
    forall x: char, y: char { LowerCharExactly(x, y); }
    if EqualFold(a, b) {
      forall i | 0 <= i < |a| ensures SameLetter(a[i], b[i]) { assert Lower(a)[i] == Lower(b)[i]; }
    }
  }

  /** Folding leaves small letters alone and capitals nowhere. */
  lemma LowerIsLower(s: string)
    ensures forall i :: 0 <= i < |s| ==> !('A' <= Lower(s)[i] <= 'Z') && SameLetter(Lower(s)[i], s[i])
    ensures Lower(Lower(s)) == Lower(s)
  {}

  ghost predicate Blank(s: string) {
    forall i :: 0 <= i < |s| ==> s[i] in {' ', '\t', '\n', '\r', '\U{000B}', '\U{000C}'}
  }

  lemma {:induction false} TrimLeftExactly(s: string) returns (l: string)
    ensures s == l + TrimLeft(s) && Blank(l)
  {
    if s != "" && IsSpace(s[0]) {
      var rest := TrimLeftExactly(s[1..]);
      l := [s[0]] + rest;
    } else {
      l := "";
    }
  }

  lemma {:induction false} TrimRightExactly(s: string) returns (r: string)
    ensures s == TrimRight(s) + r && Blank(r)
  {
    if s != "" && IsSpace(s[|s| - 1]) {
      var rest := TrimRightExactly(s[..|s| - 1]);
      r := rest + [s[|s| - 1]];
      assert s == s[..|s| - 1] + [s[|s| - 1]];
      assert TrimRight(s) + rest + [s[|s| - 1]] == TrimRight(s) + r;
    } else {
      r := "";
    }
  }

  /** Trimming takes away exactly the white space at both ends. */
  lemma TrimSpaceExactly(s: string)
    ensures exists l, r :: s == l + TrimSpace(s) + r && Blank(l) && Blank(r)
    ensures var t := TrimSpace(s); t != "" ==> !Blank([t[0]]) && !Blank([t[|t| - 1]])
  {
    var l := TrimLeftExactly(s);
    var r := TrimRightExactly(TrimLeft(s));
    assert s == l + TrimSpace(s) + r;
    TrimSpaceTrims(s);
    var t := TrimSpace(s);
    if t != "" { assert [t[0]][0] == t[0] && [t[|t| - 1]][0] == t[|t| - 1]; }
  }

  ghost predicate LessAt(a: string, b: string, n: int) {
    0 <= n <= |a| && n < |b| && a[..n] == b[..n] && (n == |a| || a[n] < b[n])
  }

  /** The order is that of the first difference, a prefix coming first. */
  lemma {:induction false} LessExactly(a: string, b: string)
    ensures Less(a, b) <==> exists n :: LessAt(a, b, n)
  {
    if b == "" {
    } else if a == "" {
      assert LessAt(a, b, 0);
    } else {
      LessExactly(a[1..], b[1..]);
      if Less(a, b) {
        if a[0] < b[0] {
          assert LessAt(a, b, 0);
        } else {
          var n :| LessAt(a[1..], b[1..], n);
          assert a[..n + 1] == [a[0]] + a[1..][..n] && b[..n + 1] == [b[0]] + b[1..][..n];
          assert LessAt(a, b, n + 1);
        }
      }
      if n :| LessAt(a, b, n) {
        if n > 0 {
          assert a[..n][0] == a[0] && b[..n][0] == b[0];
          assert a[1..][..n - 1] == a[..n][1..] && b[1..][..n - 1] == b[..n][1..];
          assert LessAt(a[1..], b[1..], n - 1);
        }
      }
    }
  }
}
