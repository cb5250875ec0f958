/**
 * The JavaScript string operations the application relies on, over
 * sequences of characters: `trim`, `toLowerCase`/`toUpperCase` (ASCII
 * letters only), `includes`, `replace` with a string pattern (first
 * occurrence only), `split` on one character, `join`, and the decimal
 * rendering of a non-negative integer.
 */
module Text {
  import opened Wrappers

  // ---------------------------------------------------------------------
  // Whitespace and trimming
  // ---------------------------------------------------------------------

  /** ASCII whitespace as `String.prototype.trim` and `\s` see it. */
  predicate IsSpace(c: char) {
    c == ' ' || c == '\t' || c == '\n' || c == '\r' || c as int == 11 || c as int == 12
  }

  predicate NoSpace(s: string) {
    forall i :: 0 <= i < |s| ==> !IsSpace(s[i])
  }

  predicate AllSpace(s: string) {
    forall i :: 0 <= i < |s| ==> IsSpace(s[i])
  }

  lemma NoSpaceAppend(a: string, b: string)
    requires NoSpace(a) && NoSpace(b)
    ensures NoSpace(a + b)
  {
    assert forall i :: |a| <= i < |a + b| ==> (a + b)[i] == b[i - |a|];
  }

  /** No whitespace at either end, as the result of `trim` is. */
  predicate Trimmed(s: string) {
    s == [] || (!IsSpace(s[0]) && !IsSpace(s[|s| - 1]))
  }

  /** Drops leading whitespace: the result is a suffix of `s` and everything dropped is whitespace. */
  function TrimStart(s: string): (r: string)
    ensures |r| <= |s| && r == s[|s| - |r|..]
    ensures forall i :: 0 <= i < |s| - |r| ==> IsSpace(s[i])
    ensures r == [] || !IsSpace(r[0])
    ensures r == [] <==> AllSpace(s)
  {
    if s != [] && IsSpace(s[0]) then TrimStart(s[1..]) else s
  }

  /** Drops trailing whitespace: the result is a prefix of `s` and everything dropped is whitespace. */
  function TrimEnd(s: string): (r: string)
    ensures |r| <= |s| && r == s[..|r|]
    ensures forall i :: |r| <= i < |s| ==> IsSpace(s[i])
    ensures r == [] || !IsSpace(r[|r| - 1])
    ensures r == [] <==> AllSpace(s)
  {
    if s != [] && IsSpace(s[|s| - 1]) then TrimEnd(s[..|s| - 1]) else s
  }

  /** `s.trim()`: the middle of `s` between its leading and trailing whitespace. */
  function Trim(s: string): (r: string)
    ensures Trimmed(r)
    ensures |r| <= |s|
    ensures r == [] <==> AllSpace(s)
  {
    TrimEndOfTrimStart(s);
    var a := TrimStart(s);
    assert AllSpace(a) <==> a == [];
    TrimEnd(a)
  }

  /** Trailing whitespace removal keeps the non-space first character left by leading whitespace removal. */
  lemma TrimEndOfTrimStart(s: string)
    ensures Trimmed(TrimEnd(TrimStart(s)))
  {
    var a := TrimStart(s);
    var r := TrimEnd(a);
    assert r != [] ==> r[0] == a[0];
  }

  lemma TrimStartOfTrimmed(s: string)
    requires s == [] || !IsSpace(s[0])
    ensures TrimStart(s) == s
  {
  }

  lemma TrimEndOfTrimmed(s: string)
    requires s == [] || !IsSpace(s[|s| - 1])
    ensures TrimEnd(s) == s
  {
  }

  /** Trimming what is already trimmed changes nothing; in particular `trim` is idempotent. */
  lemma TrimOfTrimmed(s: string)
    requires Trimmed(s)
    ensures Trim(s) == s
  {
    TrimStartOfTrimmed(s);
    TrimEndOfTrimmed(s);
  }

  /** Whitespace added at the end of a string is removed again by `trim`. */
  lemma {:induction false} TrimEndAppendSpaces(s: string, t: string)
    requires forall i :: 0 <= i < |t| ==> IsSpace(t[i])
    ensures TrimEnd(s + t) == TrimEnd(s)
    decreases |t|
  {
    if t != [] {
      assert IsSpace((s + t)[|s + t| - 1]);
      assert (s + t)[..|s + t| - 1] == s + t[..|t| - 1];
      assert TrimEnd(s + t) == TrimEnd(s + t[..|t| - 1]);
      TrimEndAppendSpaces(s, t[..|t| - 1]);
    } else {
      assert s + t == s;
    }
  }

  /** Whitespace added at the start of a string is removed again by `trim`. */
  lemma {:induction false} TrimStartPrependSpaces(t: string, s: string)
    requires forall i :: 0 <= i < |t| ==> IsSpace(t[i])
    ensures TrimStart(t + s) == TrimStart(s)
    decreases |t|
  {
    if t != [] {
      assert IsSpace((t + s)[0]);
      assert (t + s)[1..] == t[1..] + s;
      assert TrimStart(t + s) == TrimStart(t[1..] + s);
      TrimStartPrependSpaces(t[1..], s);
    } else {
      assert t + s == s;
    }
  }

  /** Leading whitespace of a string with some non-space character is not affected by what follows it. */
  lemma {:induction false} TrimStartAppend(n: string, t: string)
    requires !AllSpace(n)
    ensures TrimStart(n + t) == TrimStart(n) + t
    decreases |n|
  {
    if IsSpace(n[0]) {
      assert (n + t)[1..] == n[1..] + t;
      assert !AllSpace(n[1..]) by {
        var i :| 0 <= i < |n| && !IsSpace(n[i]);
        assert n[1..][i - 1] == n[i];
      }
      TrimStartAppend(n[1..], t);
    }
  }

  /** Whitespace around a string is exactly what `trim` removes. */
  lemma TrimPadded(ws1: string, n: string, ws2: string)
    requires AllSpace(ws1) && AllSpace(ws2)
    ensures Trim(ws1 + n + ws2) == Trim(n)
  {
    assert ws1 + n + ws2 == ws1 + (n + ws2);
    TrimStartPrependSpaces(ws1, n + ws2);
    if AllSpace(n) {
      TrimStartPrependSpaces(n, ws2);
      TrimStartPrependSpaces(ws2, []);
      assert ws2 + [] == ws2;
    } else {
      TrimStartAppend(n, ws2);
      TrimEndAppendSpaces(TrimStart(n), ws2);
    }
  }

  // ---------------------------------------------------------------------
  // ASCII case mapping
  // ---------------------------------------------------------------------

  function LowerChar(c: char): char {
    if 'A' <= c <= 'Z' then (c as int + 32) as char else c
  }

  function UpperChar(c: char): char {
    if 'a' <= c <= 'z' then (c as int - 32) as char else c
  }

  /** `s.toLowerCase()` for ASCII letters. */
  function Lower(s: string): (r: string)
    ensures |r| == |s|
    ensures forall i :: 0 <= i < |s| ==> !('A' <= r[i] <= 'Z') && (IsSpace(r[i]) <==> IsSpace(s[i]))
  {
    seq(|s|, i requires 0 <= i < |s| => LowerChar(s[i]))
  }

  /** `s.toUpperCase()` for ASCII letters. */
  function Upper(s: string): (r: string)
    ensures |r| == |s|
    ensures forall i :: 0 <= i < |s| ==> !('a' <= r[i] <= 'z') && (IsSpace(r[i]) <==> IsSpace(s[i]))
  {
    seq(|s|, i requires 0 <= i < |s| => UpperChar(s[i]))
  }

  /** A string without upper-case letters is its own lower-case form. */
  lemma LowerOfLower(s: string)
    requires forall i :: 0 <= i < |s| ==> !('A' <= s[i] <= 'Z')
    ensures Lower(s) == s
  {
  }

  /** Lower-casing twice is lower-casing once. */
  lemma LowerIdempotent(s: string)
    ensures Lower(Lower(s)) == Lower(s)
  {
    forall i | 0 <= i < |s| ensures Lower(Lower(s))[i] == Lower(s)[i] {
      var c := s[i];
      if 'A' <= c <= 'Z' {
        assert 'a' <= LowerChar(c) <= 'z';
      }
    }
  }

  /** Case mapping keeps whitespace where it is, so it commutes with `trim`. */
  lemma {:induction false} LowerTrimCommute(s: string)
    ensures Lower(Trim(s)) == Trim(Lower(s))
  {
    LowerTrimStart(s);
    LowerTrimEnd(TrimStart(s));
  }

  lemma {:induction false} LowerTrimStart(s: string)
    ensures Lower(TrimStart(s)) == TrimStart(Lower(s))
    decreases |s|
  {
    if s != [] {
      assert IsSpace(s[0]) <==> IsSpace(Lower(s)[0]);
      assert Lower(s)[1..] == Lower(s[1..]);
      if IsSpace(s[0]) {
        LowerTrimStart(s[1..]);
      }
    }
  }

  lemma {:induction false} LowerTrimEnd(s: string)
    ensures Lower(TrimEnd(s)) == TrimEnd(Lower(s))
    decreases |s|
  {
    if s != [] {
      assert IsSpace(s[|s| - 1]) <==> IsSpace(Lower(s)[|s| - 1]);
      assert Lower(s)[..|s| - 1] == Lower(s[..|s| - 1]);
      if IsSpace(s[|s| - 1]) {
        LowerTrimEnd(s[..|s| - 1]);
      }
    }
  }

  // ---------------------------------------------------------------------
  // Substring search and first-occurrence replacement
  // ---------------------------------------------------------------------

  /** `s.endsWith(w)`. */
  predicate EndsWith(s: string, w: string) {
    |w| <= |s| && s[|s| - |w|..] == w
  }

  /** `pat` occurs in `s` starting at index `i`. */
  predicate OccursAt(s: string, pat: string, i: int) {
    0 <= i && i + |pat| <= |s| && s[i..i + |pat|] == pat
  }

  /** `s.indexOf(pat, from)` as an option. */
  function FindFrom(s: string, pat: string, from: nat): (r: Option<nat>)
    ensures r.Some? ==> from <= r.value && r.value + |pat| <= |s|
    decreases |s| - from
  {
    if from + |pat| > |s| then None
    else if s[from..from + |pat|] == pat then Some(from)
    else FindFrom(s, pat, from + 1)
  }

  /** The search finds the first occurrence at or after `from`, or reports that there is none. */
  lemma {:induction false} FindFromSpec(s: string, pat: string, from: nat)
    ensures var r := FindFrom(s, pat, from);
      && (r.Some? ==> from <= r.value && OccursAt(s, pat, r.value))
      && (r.Some? ==> forall j :: from <= j < r.value ==> !OccursAt(s, pat, j))
      && (r.None? ==> forall j :: from <= j ==> !OccursAt(s, pat, j))
    decreases |s| - from
  {
    if from + |pat| <= |s| && s[from..from + |pat|] != pat {
      FindFromSpec(s, pat, from + 1);
    }
  }

  /** `s.indexOf(pat)` as an option. */
  function Find(s: string, pat: string): (r: Option<nat>)
    ensures r.Some? ==> r.value + |pat| <= |s|
  {
    FindFrom(s, pat, 0)
  }

  /** `s.includes(pat)`: the pattern occurs somewhere. */
  predicate Contains(s: string, pat: string)
    ensures Contains(s, pat) <==> exists j :: OccursAt(s, pat, j)
  {
    FindFromSpec(s, pat, 0);
    Find(s, pat).Some?
  }

  /** `Find` gives the first occurrence, and `Contains` holds exactly when there is one. */
  lemma FindSpec(s: string, pat: string)
    ensures Find(s, pat).Some? ==>
      OccursAt(s, pat, Find(s, pat).value) && forall j :: 0 <= j < Find(s, pat).value ==> !OccursAt(s, pat, j)
    ensures Contains(s, pat) <==> exists j :: OccursAt(s, pat, j)
  {
    FindFromSpec(s, pat, 0);
  }

  /** `s.replace(pat, rep)` with a string pattern: only the first occurrence is replaced. */
  function ReplaceFirst(s: string, pat: string, rep: string): (r: string)
    ensures !Contains(s, pat) ==> r == s
    ensures Contains(s, pat) ==> |r| == |s| - |pat| + |rep|
  {
    match Find(s, pat)
    case None => s
    case Some(i) => s[..i] + rep + s[i + |pat|..]
  }

  /**
   * `replace` splices `rep` over the first occurrence of `pat` and keeps the
   * rest; when `pat` does not occur the string comes back unchanged.
   */
  lemma ReplaceFirstSpec(s: string, pat: string, rep: string)
    ensures !Contains(s, pat) ==> ReplaceFirst(s, pat, rep) == s
    ensures Contains(s, pat) ==>
      var i := Find(s, pat).value;
      && OccursAt(s, pat, i)
      && (forall j :: 0 <= j < i ==> !OccursAt(s, pat, j))
      && ReplaceFirst(s, pat, rep) == s[..i] + rep + s[i + |pat|..]
  {
    FindSpec(s, pat);
  }

  /** A pattern holding a character that `s` lacks does not occur in `s`. */
  lemma AbsentWithoutChar(s: string, pat: string, k: nat)
    requires k < |pat| && pat[k] !in s
    ensures !Contains(s, pat)
  {
    forall j | 0 <= j && j + |pat| <= |s| ensures !OccursAt(s, pat, j) {
      assert s[j..j + |pat|][k] == s[j + k];
      assert s[j + k] in s;
    }
    FindSpec(s, pat);
  }

  /**
   * A pattern whose first character does not occur before it is found where it
   * stands: replacing it in `a + pat + b` gives `a + rep + b`.
   */
  lemma ReplaceAt(a: string, pat: string, b: string, rep: string)
    requires pat != [] && pat[0] !in a
    ensures ReplaceFirst(a + pat + b, pat, rep) == a + rep + b
  {
    var s := a + pat + b;
    assert OccursAt(s, pat, |a|);
    forall j | 0 <= j < |a| && j + |pat| <= |s| ensures !OccursAt(s, pat, j) {
      assert s[j..j + |pat|][0] == s[j] == a[j];
      assert a[j] in a;
    }
    FindSpec(s, pat);
    var i := Find(s, pat).value;
    assert i == |a|;
    assert s[..i] == a;
    assert s[i + |pat|..] == b;
  }

  /** Replacing a pattern that is not there returns the string unchanged. */
  lemma ReplaceAbsent(s: string, pat: string, rep: string)
    requires pat != [] && pat[0] !in s
    ensures ReplaceFirst(s, pat, rep) == s
  {
    AbsentWithoutChar(s, pat, 0);
  }

  /** An occurrence inside `b` is an occurrence inside `a + b + c`, shifted by `|a|`. */
  lemma OccursInside(a: string, b: string, c: string, pat: string, p: nat)
    requires OccursAt(b, pat, p)
    ensures OccursAt(a + b + c, pat, |a| + p)
  {
    var s := a + b + c;
    assert s[|a| + p..|a| + p + |pat|] == b[p..p + |pat|] by {
      forall i | |a| + p <= i < |a| + p + |pat| ensures s[i] == b[i - |a|] { }
    }
  }

  /** Where a pattern occurs, its tail occurs one position later. */
  lemma OccursTail(s: string, pat: string, p: nat)
    requires OccursAt(s, pat, p) && pat != []
    ensures OccursAt(s, pat[1..], p + 1)
  {
    assert s[p + 1..p + |pat|] == s[p..p + |pat|][1..];
  }

  /** Lower-casing keeps occurrences where they are. */
  lemma LowerOccurs(s: string, pat: string, p: nat)
    requires OccursAt(s, pat, p)
    ensures OccursAt(Lower(s), Lower(pat), p)
  {
    assert Lower(s)[p..p + |pat|] == Lower(pat) by {
      forall i | 0 <= i < |pat| ensures Lower(s)[p + i] == Lower(pat)[i] {
        assert s[p + i] == pat[i];
      }
    }
  }

  // ---------------------------------------------------------------------
  // split and join
  // ---------------------------------------------------------------------

  /** `s.split(sep)` for a one-character separator: always at least one piece. */
  function Split(s: string, sep: char): (r: seq<string>)
    ensures |r| >= 1
    ensures forall k :: 0 <= k < |r| ==> sep !in r[k]
  {
    if s == [] then [[]]
    else
      var rest := Split(s[1..], sep);
      if s[0] == sep then [[]] + rest
      else [[s[0]] + rest[0]] + rest[1..]
  }

  /** `ws.join(sep)`. */
  function Join(ws: seq<string>, sep: string): (r: string)
    ensures |ws| == 1 ==> r == ws[0]
    decreases |ws|
  {
    if ws == [] then []
    else if |ws| == 1 then ws[0]
    else ws[0] + sep + Join(ws[1..], sep)
  }

  /** A join of pieces begins with the first piece and ends with the last. */
  lemma {:induction false} JoinEnds(ws: seq<string>, sep: string)
    requires ws != []
    ensures |ws[0]| <= |Join(ws, sep)| && Join(ws, sep)[..|ws[0]|] == ws[0]
    ensures EndsWith(Join(ws, sep), ws[|ws| - 1])
    decreases |ws|
  {
    if |ws| > 1 {
      JoinEnds(ws[1..], sep);
      var r := Join(ws, sep);
      var t := Join(ws[1..], sep);
      assert r == ws[0] + sep + t;
      assert r[|r| - |t|..] == t;
      assert t[|t| - |ws[|ws| - 1]|..] == ws[|ws| - 1];
      assert r[|r| - |ws[|ws| - 1]|..] == t[|t| - |ws[|ws| - 1]|..];
    }
  }

  lemma JoinCons(w: string, ws: seq<string>, sep: string)
    requires ws != []
    ensures Join([w] + ws, sep) == w + sep + Join(ws, sep)
  {
    assert ([w] + ws)[1..] == ws;
  }

  /** Appending a piece appends the separator and the piece, unless the list was empty. */
  lemma {:induction false} JoinSnoc(ws: seq<string>, w: string, sep: string)
    ensures Join(ws + [w], sep) == if ws == [] then w else Join(ws, sep) + sep + w
    decreases |ws|
  {
    if |ws| > 1 {
      assert (ws + [w])[1..] == ws[1..] + [w];
      JoinSnoc(ws[1..], w, sep);
    } else if |ws| == 1 {
      assert ws + [w] == [ws[0], w];
    }
  }

  /** Every piece occurs in the join. */
  lemma {:induction false} JoinHasPiece(ws: seq<string>, sep: string, k: nat)
    requires k < |ws|
    ensures exists p :: OccursAt(Join(ws, sep), ws[k], p)
    decreases |ws|
  {
    if |ws| == 1 {
      assert OccursAt(Join(ws, sep), ws[k], 0);
    } else {
      var rest := Join(ws[1..], sep);
      assert Join(ws, sep) == ws[0] + (sep + rest);
      if k == 0 {
        OccursInside([], ws[0], sep + rest, ws[0], 0);
        assert [] + ws[0] + (sep + rest) == Join(ws, sep);
        assert OccursAt(Join(ws, sep), ws[k], 0);
      } else {
        JoinHasPiece(ws[1..], sep, k - 1);
        var p :| OccursAt(rest, ws[k], p);
        OccursInside(ws[0] + sep, rest, [], ws[k], p);
        assert ws[0] + sep + rest + [] == Join(ws, sep);
        assert OccursAt(Join(ws, sep), ws[k], |ws[0] + sep| + p);
      }
    }
  }

  /** A join whose first piece is not empty is not empty. */
  lemma JoinNonEmpty(ws: seq<string>, sep: string)
    requires ws != [] && ws[0] != []
    ensures Join(ws, sep) != []
  {
  }

  /** Joining the pieces of a split with the same separator gives back the original string. */
  lemma {:induction false} JoinSplit(s: string, sep: char)
    ensures Join(Split(s, sep), [sep]) == s
    decreases |s|
  {
    if s != [] {
      var rest := Split(s[1..], sep);
      JoinSplit(s[1..], sep);
      assert Join(rest, [sep]) == s[1..];
      assert s == [s[0]] + s[1..];
      if s[0] == sep {
        assert Split(s, sep) == [[]] + rest;
        JoinCons([], rest, [sep]);
      } else if |rest| == 1 {
        assert Split(s, sep) == [[s[0]] + rest[0]];
      } else {
        assert Split(s, sep) == [[s[0]] + rest[0]] + rest[1..];
        assert Join(rest, [sep]) == rest[0] + [sep] + Join(rest[1..], [sep]);
        JoinCons([s[0]] + rest[0], rest[1..], [sep]);
      }
    }
  }

  /** Splitting a join of separator-free pieces gives back the pieces. */
  lemma {:induction false} SplitJoin(ws: seq<string>, sep: char)
    requires ws != []
    requires forall k :: 0 <= k < |ws| ==> sep !in ws[k]
    ensures Split(Join(ws, [sep]), sep) == ws
    decreases |ws|, |ws[0]|
  {
    var w := ws[0];
    if |ws| == 1 {
      SplitWord(w, sep, []);
    } else {
      SplitJoin(ws[1..], sep);
      SplitWord(w, sep, Join(ws[1..], [sep]));
      assert [w] + ws[1..] == ws;
    }
  }

  /** Splitting `w + [sep] + t` (or `w` alone) where `w` has no separator puts `w` first. */
  lemma {:induction false} SplitWord(w: string, sep: char, t: string)
    requires sep !in w
    ensures Split(w, sep) == [w]
    ensures Split(w + [sep] + t, sep) == [w] + Split(t, sep)
    decreases |w|
  {
    if w == [] {
      assert ([] + [sep] + t)[1..] == t;
    } else {
      SplitWord(w[1..], sep, t);
      assert (w + [sep] + t)[1..] == w[1..] + [sep] + t;
      assert [w[0]] + w[1..] == w;
    }
  }

  // ---------------------------------------------------------------------
  // Decimal rendering of non-negative integers
  // ---------------------------------------------------------------------

  predicate IsDigit(c: char) {
    '0' <= c <= '9'
  }

  function DigitChar(d: nat): (c: char)
    requires d < 10
    ensures IsDigit(c) && c as int - '0' as int == d
  {
    ('0' as int + d) as char
  }

  /** `String(n)` for a non-negative integer: decimal digits, no sign, no leading zero. */
  function Decimal(n: nat): (r: string)
    ensures |r| >= 1
    ensures forall i :: 0 <= i < |r| ==> IsDigit(r[i])
    ensures |r| > 1 ==> r[0] != '0'
    decreases n
  {
    if n < 10 then [DigitChar(n)] else Decimal(n / 10) + [DigitChar(n % 10)]
  }

  /** The value of a string of decimal digits. */
  function DecimalValue(s: string): int
    requires forall i :: 0 <= i < |s| ==> IsDigit(s[i])
  {
    if s == [] then 0 else 10 * DecimalValue(s[..|s| - 1]) + (s[|s| - 1] as int - '0' as int)
  }

  /** Reading back the decimal rendering gives the number: the rendering loses nothing. */
  lemma {:induction false} DecimalRoundTrip(n: nat)
    ensures DecimalValue(Decimal(n)) == n
    decreases n
  {
    if n >= 10 {
      DecimalRoundTrip(n / 10);
      var r := Decimal(n);
      assert r[..|r| - 1] == Decimal(n / 10);
    }
  }
}
