/**
 * The two JavaScript string operations the core relies on: `String.prototype.trim`
 * (used by the ticket form's tag parser and by the Ticket schema's `trim` setter)
 * and `String.prototype.split` with a one-character separator.
 * Strings are sequences of `char`; their length stands for the JavaScript `.length`.
 */
module Text {

  /** The code points JavaScript's `trim` strips: WhiteSpace and LineTerminator. */
  predicate IsWhitespace(c: char) {
    || c == '\t' || c == '\n' || c == '\U{000B}' || c == '\U{000C}' || c == '\r'
    || c == ' ' || c == '\U{00A0}' || c == '\U{1680}'
    || ('\U{2000}' <= c <= '\U{200A}')
    || c == '\U{2028}' || c == '\U{2029}' || c == '\U{202F}' || c == '\U{205F}'
    || c == '\U{3000}' || c == '\U{FEFF}'
  }

  predicate AllWhitespace(s: string) {
    forall i :: 0 <= i < |s| ==> IsWhitespace(s[i])
  }

  /** Neither end of `s` is whitespace. */
  predicate IsTrimmed(s: string) {
    s == [] || (!IsWhitespace(s[0]) && !IsWhitespace(s[|s| - 1]))
  }

  /** `s` without its leading whitespace. */
  function TrimStart(s: string): (r: string)
    ensures |r| <= |s| && r == s[|s| - |r|..]
    ensures r == [] || !IsWhitespace(r[0])
    ensures forall i :: 0 <= i < |s| - |r| ==> IsWhitespace(s[i])
    decreases |s|
  {
    if s != [] && IsWhitespace(s[0]) then
      var r := TrimStart(s[1..]);
      assert forall i :: 0 <= i < |s| - |r| ==> IsWhitespace(s[i]) by {
        forall i | 0 < i < |s| - |r| ensures IsWhitespace(s[i]) {
          assert s[i] == s[1..][i - 1];
        }
      }
      r
    else s
  }

  /** `s` without its trailing whitespace. */
  function TrimEnd(s: string): (r: string)
    ensures |r| <= |s| && r == s[..|r|]
    ensures r == [] || !IsWhitespace(r[|r| - 1])
    ensures forall i :: |r| <= i < |s| ==> IsWhitespace(s[i])
    decreases |s|
  {
    if s != [] && IsWhitespace(s[|s| - 1]) then
      var r := TrimEnd(s[..|s| - 1]);
      assert forall i :: |r| <= i < |s| ==> IsWhitespace(s[i]) by {
        forall i | |r| <= i < |s| - 1 ensures IsWhitespace(s[i]) {
          assert s[i] == s[..|s| - 1][i];
        }
      }
      r
    else s
  }

  /** JavaScript's `s.trim()`. */
  function Trim(s: string): (r: string)
    ensures IsTrimmed(r)
    ensures |r| <= |s|
    ensures r == [] <==> AllWhitespace(s)
    ensures IsTrimmed(s) ==> r == s
    ensures forall c :: c in r ==> c in s
    ensures exists i, j :: 0 <= i <= j <= |s| && r == s[i..j] && AllWhitespace(s[..i]) && AllWhitespace(s[j..])
  {
    var u := TrimStart(s);
    var r := TrimEnd(u);
    assert IsTrimmed(r) && (r == [] <==> u == []) by {
      TrimEndKeepsHead(u);
    }
    SliceBetweenBlanks(s, u, r);
    assert forall c :: c in r ==> c in u;
    assert AllWhitespace(s) ==> u == [] by {
      if AllWhitespace(s) {
        BlankTrimStart(s);
      }
    }
    assert IsTrimmed(s) ==> r == s by {
      if IsTrimmed(s) {
        TrimStartOfTrimmed(s);
        TrimEndOfTrimmed(s);
      }
    }
    r
  }

  /**
   * A prefix `r` of a suffix `u` of `s`, where what lies outside `r` is
   * whitespace: `r` is one slice of `s` with whitespace on both sides.
   */
  lemma SliceBetweenBlanks(s: string, u: string, r: string)
    requires |u| <= |s| && u == s[|s| - |u|..]
    requires forall k :: 0 <= k < |s| - |u| ==> IsWhitespace(s[k])
    requires |r| <= |u| && r == u[..|r|]
    requires forall k :: |r| <= k < |u| ==> IsWhitespace(u[k])
    ensures exists i, j :: 0 <= i <= j <= |s| && r == s[i..j] && AllWhitespace(s[..i]) && AllWhitespace(s[j..])
  {
    var i := |s| - |u|;
    BlankPrefix(s, i);
    BlankSuffix(u, |r|);
    assert s[i + |r|..] == u[|r|..];
    assert r == s[i..i + |r|];
  }

  lemma BlankPrefix(s: string, n: nat)
    requires n <= |s| && forall k :: 0 <= k < n ==> IsWhitespace(s[k])
    ensures AllWhitespace(s[..n])
  {
    forall k | 0 <= k < n ensures IsWhitespace(s[..n][k]) {
      assert s[..n][k] == s[k];
    }
  }

  lemma BlankSuffix(s: string, n: nat)
    requires n <= |s| && forall k :: n <= k < |s| ==> IsWhitespace(s[k])
    ensures AllWhitespace(s[n..])
  {
    forall k | 0 <= k < |s| - n ensures IsWhitespace(s[n..][k]) {
      assert s[n..][k] == s[n + k];
    }
  }

  /** On a string that starts with a non-blank, `TrimEnd` keeps that first character. */
  lemma TrimEndKeepsHead(u: string)
    requires u == [] || !IsWhitespace(u[0])
    ensures TrimEnd(u) == [] <==> u == []
    ensures TrimEnd(u) != [] ==> TrimEnd(u)[0] == u[0]
  {
  }

  lemma {:induction false} BlankTrimStart(s: string)
    requires AllWhitespace(s)
    ensures TrimStart(s) == []
    decreases |s|
  {
    if s != [] {
      BlankTrimStart(s[1..]);
    }
  }

  lemma TrimStartOfTrimmed(s: string)
    requires s == [] || !IsWhitespace(s[0])
    ensures TrimStart(s) == s
  {
  }

  lemma TrimEndOfTrimmed(s: string)
    requires s == [] || !IsWhitespace(s[|s| - 1])
    ensures TrimEnd(s) == s
  {
  }

  /** Trimming twice is trimming once. */
  lemma TrimIdempotent(s: string)
    ensures Trim(Trim(s)) == Trim(s)
  {
  }

  /** JavaScript's `xs.map((x) => x.trim())`. */
  function TrimAll(xs: seq<string>): (r: seq<string>)
    ensures |r| == |xs|
    ensures forall i :: 0 <= i < |r| ==> r[i] == Trim(xs[i])
  {
    seq(|xs|, i requires 0 <= i < |xs| => Trim(xs[i]))
  }

  /** How often `c` occurs in `s`. */
  function Count(s: string, c: char): nat
    decreases |s|
  {
    if s == [] then 0 else (if s[0] == c then 1 else 0) + Count(s[1..], c)
  }

  /**
   * JavaScript's `s.split(sep)` for a one-character separator: the maximal pieces
   * between separators, always at least one (`"".split(",")` is `[""]`).
   */
  function Split(s: string, sep: char): (pieces: seq<string>)
    ensures |pieces| == Count(s, sep) + 1
    decreases |s|
  {
    if s == [] then [""]
    else
      var rest := Split(s[1..], sep);
      if s[0] == sep then [""] + rest
      else [[s[0]] + rest[0]] + rest[1..]
  }

  /** JavaScript's `pieces.join(sep)`. */
  function Join(pieces: seq<string>, sep: char): string
    requires |pieces| >= 1
    decreases |pieces|
  {
    if |pieces| == 1 then pieces[0] else pieces[0] + [sep] + Join(pieces[1..], sep)
  }

  /** Joining the pieces again gives back the split string. */
  lemma {:induction false} JoinSplit(s: string, sep: char)
    ensures Join(Split(s, sep), sep) == s
    decreases |s|
  {
    if s != [] {
      var rest := Split(s[1..], sep);
      JoinSplit(s[1..], sep);
      if s[0] == sep {
        assert s == [sep] + s[1..];
      } else if |rest| == 1 {
        assert s == [s[0]] + s[1..];
      } else {
        assert Join(rest, sep) == rest[0] + [sep] + Join(rest[1..], sep);
        assert s == [s[0]] + s[1..];
        assert [[s[0]] + rest[0]] + rest[1..] == Split(s, sep);
      }
    }
  }

  /** `Split` unfolded once on a string with a known first character. */
  lemma SplitCons(c: char, s: string, sep: char)
    ensures Split([c] + s, sep) ==
      if c == sep then [""] + Split(s, sep) else [[c] + Split(s, sep)[0]] + Split(s, sep)[1..]
  {
    assert ([c] + s)[0] == c && ([c] + s)[1..] == s;
  }

  /** No piece contains the separator. */
  lemma {:induction false} SplitPiecesFree(s: string, sep: char)
    ensures forall i :: 0 <= i < |Split(s, sep)| ==> sep !in Split(s, sep)[i]
    decreases |s|
  {
    if s != [] {
      SplitPiecesFree(s[1..], sep);
      assert s == [s[0]] + s[1..];
      SplitCons(s[0], s[1..], sep);
      var rest := Split(s[1..], sep);
      if s[0] != sep {
        assert sep !in [s[0]] + rest[0];
      }
    }
  }

  /** Extending the first piece of a concatenation of piece lists extends the first list's first piece. */
  lemma ExtendFirstPiece(c: char, head: seq<string>, tail: seq<string>)
    requires |head| >= 1
    ensures [[c] + (head + tail)[0]] + (head + tail)[1..] == ([[c] + head[0]] + head[1..]) + tail
  {
    assert (head + tail)[0] == head[0];
    assert (head + tail)[1..] == head[1..] + tail;
  }

  /** A non-empty first part is its first character in front of the rest. */
  lemma Uncons(a: string, b: string, sep: char)
    requires a != []
    ensures a == [a[0]] + a[1..]
    ensures a + [sep] + b == [a[0]] + (a[1..] + [sep] + b)
  {
  }

  lemma PrependPiece(p: string, head: seq<string>, tail: seq<string>)
    ensures [p] + (head + tail) == ([p] + head) + tail
  {
  }

  /** The inductive step of `SplitAround` when the first part starts with a separator. */
  lemma SplitAroundSepStep(a: string, b: string, sep: char)
    requires a != [] && a[0] == sep
    requires Split(a[1..] + [sep] + b, sep) == Split(a[1..], sep) + Split(b, sep)
    ensures Split(a + [sep] + b, sep) == Split(a, sep) + Split(b, sep)
  {
    Uncons(a, b, sep);
    SplitCons(sep, a[1..] + [sep] + b, sep);
    SplitCons(sep, a[1..], sep);
    PrependPiece("", Split(a[1..], sep), Split(b, sep));
  }

  /** The inductive step of `SplitAround` when the first part starts with another character. */
  lemma SplitAroundCharStep(a: string, b: string, sep: char)
    requires a != [] && a[0] != sep
    requires Split(a[1..] + [sep] + b, sep) == Split(a[1..], sep) + Split(b, sep)
    ensures Split(a + [sep] + b, sep) == Split(a, sep) + Split(b, sep)
  {
    Uncons(a, b, sep);
    SplitCons(a[0], a[1..] + [sep] + b, sep);
    SplitCons(a[0], a[1..], sep);
    ExtendFirstPiece(a[0], Split(a[1..], sep), Split(b, sep));
  }

  /** A separator splits the string into the pieces before it followed by the pieces after it. */
  lemma {:induction false} SplitAround(a: string, b: string, sep: char)
    ensures Split(a + [sep] + b, sep) == Split(a, sep) + Split(b, sep)
    decreases |a|
  {
    if a == [] {
      assert a + [sep] + b == [sep] + b;
      SplitCons(sep, b, sep);
    } else {
      SplitAround(a[1..], b, sep);
      if a[0] == sep {
        SplitAroundSepStep(a, b, sep);
      } else {
        SplitAroundCharStep(a, b, sep);
      }
    }
  }

  /** Splitting pieces joined by a separator they do not contain gives the pieces back. */
  lemma {:induction false} SplitJoin(pieces: seq<string>, sep: char)
    requires |pieces| >= 1
    requires forall i :: 0 <= i < |pieces| ==> sep !in pieces[i]
    ensures Split(Join(pieces, sep), sep) == pieces
    decreases |pieces|
  {
    if |pieces| == 1 {
      SplitFree(pieces[0], sep);
    } else {
      SplitJoin(pieces[1..], sep);
      SplitAround(pieces[0], Join(pieces[1..], sep), sep);
      SplitFree(pieces[0], sep);
      assert pieces == [pieces[0]] + pieces[1..];
    }
  }

  /** A string without the separator is a single piece. */
  lemma {:induction false} SplitFree(s: string, sep: char)
    requires sep !in s
    ensures Split(s, sep) == [s]
    decreases |s|
  {
    if s != [] {
      SplitFree(s[1..], sep);
      assert s == [s[0]] + s[1..];
    }
  }
}
