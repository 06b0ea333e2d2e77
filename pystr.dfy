/**
  The Python `str` operations the pipeline relies on: whitespace, `strip`,
  `split`, `join`, the `in` substring test, `endswith` and `lower`.
 */
module PyStr {

  /** `c.isspace()`: the characters Python's `str.strip()` and the regex class `\s` treat as whitespace. */
  predicate IsSpace(c: char) {
    ('\U{9}' <= c <= '\U{D}') || ('\U{1C}' <= c <= '\U{1F}') || c == ' ' ||
    c == '\U{85}' || c == '\U{A0}' || c == '\U{1680}' || ('\U{2000}' <= c <= '\U{200A}') ||
    c == '\U{2028}' || c == '\U{2029}' || c == '\U{202F}' || c == '\U{205F}' || c == '\U{3000}'
  }

  /** `c.isdigit()` restricted to the ASCII digits. */
  predicate IsDigit(c: char) {
    '0' <= c <= '9'
  }

  /** `s.lstrip()` */
  function LStrip(s: string): (r: string)
    ensures |r| <= |s|
  {
    if s != [] && IsSpace(s[0]) then LStrip(s[1..]) else s
  }

  /** `lstrip` removes whitespace only, and all of it. */
  lemma {:induction false} LStripSpaces(s: string)
    ensures LStrip(s) == s[|s| - |LStrip(s)|..]
    ensures forall k :: 0 <= k < |s| - |LStrip(s)| ==> IsSpace(s[k])
    ensures LStrip(s) != [] ==> !IsSpace(LStrip(s)[0])
  {
    if s != [] && IsSpace(s[0]) {
      LStripSpaces(s[1..]);
      assert LStrip(s) == LStrip(s[1..]);
      forall k | 1 <= k < |s| - |LStrip(s)| ensures IsSpace(s[k]) {
        assert s[k] == s[1..][k - 1];
      }
    }
  }

  /** `s.rstrip()` */
  function RStrip(s: string): (r: string)
    ensures |r| <= |s|
  {
    if s != [] && IsSpace(s[|s| - 1]) then RStrip(s[..|s| - 1]) else s
  }

  /** `rstrip` removes whitespace only, and all of it. */
  lemma {:induction false} RStripSpaces(s: string)
    ensures RStrip(s) == s[..|RStrip(s)|]
    ensures forall k :: |RStrip(s)| <= k < |s| ==> IsSpace(s[k])
    ensures RStrip(s) != [] ==> !IsSpace(RStrip(s)[|RStrip(s)| - 1])
  {
    if s != [] && IsSpace(s[|s| - 1]) {
      RStripSpaces(s[..|s| - 1]);
      assert RStrip(s) == RStrip(s[..|s| - 1]);
      forall k | |RStrip(s)| <= k < |s| - 1 ensures IsSpace(s[k]) {
        assert s[k] == s[..|s| - 1][k];
      }
    }
  }

  /** `s.strip()`: `s` without its leading and trailing whitespace. */
  function Strip(s: string): (r: string)
    ensures |r| <= |s|
  {
    RStrip(LStrip(s))
  }

  /**
    The stripped text is a slice of `s` that neither starts nor ends with
    whitespace, and it is empty exactly when `s` is all whitespace.
   */
  lemma StripSlice(s: string)
    ensures Strip(s) != [] ==> !IsSpace(Strip(s)[0]) && !IsSpace(Strip(s)[|Strip(s)| - 1])
    ensures Contains(s, Strip(s))
    ensures Strip(s) == [] <==> forall k :: 0 <= k < |s| ==> IsSpace(s[k])
  {
    var l := LStrip(s);
    var r := RStrip(l);
    LStripSpaces(s);
    RStripSpaces(l);
    assert OccursAt(s, r, |s| - |l|);
  }

  /** `t` occurs in `s` starting at index `k`. */
  predicate OccursAt(s: string, t: string, k: int) {
    0 <= k && k + |t| <= |s| && s[k..k + |t|] == t
  }

  /** `t in s` */
  predicate Contains(s: string, t: string) {
    exists k :: 0 <= k <= |s| - |t| && OccursAt(s, t, k)
  }

  /** `s.find(t)`: the first index where `t` occurs in `s`, or -1. */
  function Find(s: string, t: string): (r: int)
    requires |t| > 0
    ensures r == -1 || OccursAt(s, t, r)
    decreases |s|
  {
    if |s| < |t| then -1
    else if s[..|t|] == t then 0
    else
      var r := Find(s[1..], t);
      if r < 0 then -1
      else
        OccursAtTail(s, t, r + 1);
        r + 1
  }

  /** No occurrence of `t` starts before the one `Find` returns. */
  lemma {:induction false} FindFirst(s: string, t: string)
    requires |t| > 0
    ensures forall k :: 0 <= k && (Find(s, t) == -1 || k < Find(s, t)) ==> !OccursAt(s, t, k)
    decreases |s|
  {
    if |s| >= |t| && s[..|t|] != t {
      FindFirst(s[1..], t);
      forall k | 1 <= k ensures OccursAt(s, t, k) <==> OccursAt(s[1..], t, k - 1) {
        OccursAtTail(s, t, k);
      }
    }
  }

  lemma OccursAtTail(s: string, t: string, k: int)
    requires 1 <= k && s != []
    ensures OccursAt(s, t, k) <==> OccursAt(s[1..], t, k - 1)
  {
    if k + |t| <= |s| {
      var a := s[k..k + |t|];
      var b := s[1..][k - 1..k - 1 + |t|];
      assert |a| == |b|;
      forall j | 0 <= j < |a| ensures a[j] == b[j] {
        assert a[j] == s[k + j];
        assert b[j] == s[1..][k - 1 + j];
      }
      assert a == b;
    }
  }

  /** `sep.join(parts)` */
  function Join(sep: string, parts: seq<string>): string {
    if |parts| == 0 then ""
    else if |parts| == 1 then parts[0]
    else parts[0] + sep + Join(sep, parts[1..])
  }

  /** Each part occurs in the joined text. */
  lemma {:induction false} JoinContains(sep: string, parts: seq<string>, i: nat)
    requires i < |parts|
    ensures Contains(Join(sep, parts), parts[i])
  {
    var j := Join(sep, parts);
    if |parts| == 1 {
      assert OccursAt(j, parts[i], 0);
    } else if i == 0 {
      assert j == parts[0] + (sep + Join(sep, parts[1..]));
      assert j[..|parts[0]|] == parts[0];
      assert OccursAt(j, parts[i], 0);
    } else {
      var rest := Join(sep, parts[1..]);
      JoinContains(sep, parts[1..], i - 1);
      var k :| 0 <= k <= |rest| - |parts[i]| && OccursAt(rest, parts[i], k);
      var off := |parts[0]| + |sep|;
      assert j == (parts[0] + sep) + rest;
      assert j[off + k..off + k + |parts[i]|] == rest[k..k + |parts[i]|];
      assert OccursAt(j, parts[i], off + k);
    }
  }

  /** The last part comes after the others and one more `sep`. */
  lemma {:induction false} JoinLast(sep: string, parts: seq<string>)
    requires |parts| > 1
    ensures Join(sep, parts) == Join(sep, parts[..|parts| - 1]) + sep + parts[|parts| - 1]
    decreases |parts|
  {
    var n := |parts|;
    if n == 2 {
      assert parts[..1] == [parts[0]];
      assert parts[1..] == [parts[1]];
    } else {
      JoinLast(sep, parts[1..]);
      assert parts[..n - 1][1..] == parts[1..][..n - 2];
      assert parts[1..][n - 2] == parts[n - 1];
      var mid := Join(sep, parts[1..][..n - 2]);
      assert Join(sep, parts) == parts[0] + sep + (mid + sep + parts[n - 1]);
      assert Join(sep, parts[..n - 1]) == parts[0] + sep + mid;
    }
  }

  /** A join is empty only when its last part is. */
  lemma JoinNonEmpty(sep: string, parts: seq<string>)
    requires parts != [] && parts[|parts| - 1] != ""
    ensures Join(sep, parts) != ""
  {
    if |parts| > 1 {
      JoinLast(sep, parts);
    }
  }

  /** `s.split(sep)`: the pieces between the non-overlapping occurrences of `sep`, left to right. */
  function Split(s: string, sep: string): (r: seq<string>)
    requires |sep| > 0
    ensures |r| >= 1
    decreases |s|
  {
    var k := Find(s, sep);
    if k < 0 then [s] else [s[..k]] + Split(s[k + |sep|..], sep)
  }

  /** Joining the pieces with `sep` gives back `s`, and no piece holds `sep`. */
  lemma SplitJoin(s: string, sep: string)
    requires |sep| > 0
    ensures Join(sep, Split(s, sep)) == s
    ensures forall i :: 0 <= i < |Split(s, sep)| ==> !Contains(Split(s, sep)[i], sep)
  {
    SplitJoins(s, sep);
    SplitPieces(s, sep);
  }

  lemma {:induction false} SplitJoins(s: string, sep: string)
    requires |sep| > 0
    ensures Join(sep, Split(s, sep)) == s
    decreases |s|
  {
    var k := Find(s, sep);
    if k < 0 {
      assert Split(s, sep) == [s];
    } else {
      var rest := s[k + |sep|..];
      SplitJoins(rest, sep);
      assert Split(s, sep) == [s[..k]] + Split(rest, sep);
      JoinCons(sep, s[..k], Split(rest, sep));
      assert s == s[..k] + (sep + rest);
    }
  }

  lemma {:induction false} SplitPieces(s: string, sep: string)
    requires |sep| > 0
    ensures forall i :: 0 <= i < |Split(s, sep)| ==> !Contains(Split(s, sep)[i], sep)
    decreases |s|
  {
    var k := Find(s, sep);
    if k < 0 {
      FindFirst(s, sep);
      NoOccurrencePrefix(s, sep, |s|);
      assert s[..|s|] == s;
    } else {
      var rest := s[k + |sep|..];
      FindFirst(s, sep);
      NoOccurrencePrefix(s, sep, k);
      SplitPieces(rest, sep);
      var ps := Split(s, sep);
      assert ps == [s[..k]] + Split(rest, sep);
      assert forall i :: 1 <= i < |ps| ==> ps[i] == Split(rest, sep)[i - 1];
    }
  }

  lemma JoinCons(sep: string, a: string, ps: seq<string>)
    requires ps != []
    ensures Join(sep, [a] + ps) == a + (sep + Join(sep, ps))
  {
    assert ([a] + ps)[1..] == ps;
  }

  /** When `sep` does not start anywhere before `n` in `s`, it does not occur in `s[..n]`. */
  lemma NoOccurrencePrefix(s: string, sep: string, n: int)
    requires |sep| > 0 && 0 <= n <= |s|
    requires forall k :: 0 <= k < n ==> !OccursAt(s, sep, k)
    ensures !Contains(s[..n], sep)
  {
    forall k | OccursAt(s[..n], sep, k) ensures false {
      assert s[..n][k..k + |sep|] == s[k..k + |sep|];
      assert OccursAt(s, sep, k);
    }
  }

  /** `s.split(sep, 1)` when `sep in s`: the text before the first `sep` and the text after it. */
  function SplitOnce(s: string, sep: string): (r: (string, string))
    requires |sep| > 0
    ensures Contains(s, sep) ==> s == r.0 + sep + r.1 && !Contains(r.0, sep)
    ensures !Contains(s, sep) ==> r == (s, "")
  {
    var k := Find(s, sep);
    FindFirst(s, sep);
    if k < 0 then (s, "")
    else
      NoOccurrencePrefix(s, sep, k);
      assert s == s[..k] + sep + s[k + |sep|..];
      (s[..k], s[k + |sep|..])
  }

  /** `s.endswith(t)` */
  predicate EndsWith(s: string, t: string) {
    |t| <= |s| && s[|s| - |t|..] == t
  }

  /**
    `c.lower()` for the ASCII and Latin-1 capitals; every other character is
    left as it is.
   */
  function LowerChar(c: char): (r: char)
    ensures ('A' <= c <= 'Z' || ('À' <= c <= 'Þ' && c != '×')) ==> r as int == c as int + 32
    ensures !('A' <= c <= 'Z' || ('À' <= c <= 'Þ' && c != '×')) ==> r == c
  {
    if 'A' <= c <= 'Z' || ('À' <= c <= 'Þ' && c != '×') then (c as int + 32) as char else c
  }

  /** `s.lower()`, character by character with `LowerChar`. */
  function Lower(s: string): (r: string)
    ensures |r| == |s|
    ensures forall i :: 0 <= i < |s| ==> r[i] == LowerChar(s[i])
  {
    if s == [] then [] else [LowerChar(s[0])] + Lower(s[1..])
  }
}
