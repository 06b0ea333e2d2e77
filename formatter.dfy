/**
  `format_response` (plataforma/views.py): the chat reply is cut into
  sentences at ". ", the sentences are grouped into paragraphs, and each
  paragraph that looks like "title: description" is set as a bold title over
  its description; the paragraphs are joined with a blank line.
 */
module Formatter {
  import opened PyStr
  import Sequences

  /** The words that open a new topic and so end the paragraph they appear in. */
  const Cues: seq<string> := ["además", "por otro lado", "también", "asimismo", "finalmente"]

  /** Some cue word occurs in `s`. */
  predicate HasCue(s: string) {
    exists i :: 0 <= i < |Cues| && Contains(s, Cues[i])
  }

  /** The paragraph being built and the paragraphs closed so far. */
  datatype Grouping = Grouping(current: string, closed: seq<string>)

  /*
    The sentence loop is written for any `strip` function and closing rule
    `closes`, so that what it keeps is proved once, from the few facts about
    `strip` that `Stripping` lists; the code's loop is the one with `Strip`
    and `Closes`.
   */

  /** Sentence `i` as it is appended: stripped, with a full stop added unless it is the last one or already ends with one. */
  function Sentence(sentences: seq<string>, i: nat, strip: string -> string): (r: string)
    requires i < |sentences|
    ensures strip(sentences[i]) != "" ==> r != []
  {
    var s := strip(sentences[i]);
    if i < |sentences| - 1 && !EndsWith(s, ".") then s + "." else s
  }

  /** The code's closing rule: splitting the paragraph at ". " gives three pieces or more, or the sentence just added carries a cue word. */
  predicate Closes(current: string, sentence: string) {
    |Split(current, ". ")| >= 3 || HasCue(Lower(sentence))
  }

  /** One turn of the sentence loop; a sentence that strips to nothing is skipped. */
  function Step(g: Grouping, sentences: seq<string>, i: nat, strip: string -> string,
                closes: (string, string) -> bool): Grouping
    requires i < |sentences|
  {
    if strip(sentences[i]) == "" then g
    else
      var sentence := Sentence(sentences, i, strip);
      var current := g.current + sentence + " ";
      if closes(current, sentence) then Grouping("", g.closed + [strip(current)])
      else Grouping(current, g.closed)
  }

  /** The grouping after the first `k` sentences. */
  function Walk(sentences: seq<string>, k: nat, strip: string -> string, closes: (string, string) -> bool): Grouping
    requires k <= |sentences|
  {
    if k == 0 then Grouping("", [])
    else Step(Walk(sentences, k - 1, strip, closes), sentences, k - 1, strip, closes)
  }

  /** The paragraphs: the closed ones and the unfinished last one, unless it is blank. */
  function Group(sentences: seq<string>, strip: string -> string, closes: (string, string) -> bool): seq<string> {
    var g := Walk(sentences, |sentences|, strip, closes);
    if strip(g.current) != "" then g.closed + [strip(g.current)] else g.closed
  }

  /** `re.search(r'\d+\.\s', p)` finds a match: a digit, a full stop and whitespace in a row. */
  predicate NumberedItem(p: string) {
    exists k :: 0 <= k < |p| - 2 && IsDigit(p[k]) && p[k + 1] == '.' && IsSpace(p[k + 2])
  }

  /** `re.search(r'[-•]\s', p)` finds a match: a dash or a bullet followed by whitespace. */
  predicate BulletItem(p: string) {
    exists k :: 0 <= k < |p| - 1 && (p[k] == '-' || p[k] == '•') && IsSpace(p[k + 1])
  }

  /** How a paragraph is presented: lists as they are, "title: description" as a bold title over the description. */
  function FormatParagraph(p: string): string {
    if NumberedItem(p) || BulletItem(p) then p
    else if Contains(p, ":") && |Split(p, ":")| == 2 then
      var (title, description) := SplitOnce(p, ":");
      "**" + Strip(title) + ":**\n" + Strip(description)
    else p
  }

  /** `FormatParagraph` over `ps`, in order. */
  function FormatAll(ps: seq<string>): (r: seq<string>)
    ensures |r| == |ps|
  {
    if ps == [] then [] else FormatAll(ps[..|ps| - 1]) + [FormatParagraph(ps[|ps| - 1])]
  }

  /** What `format_response` returns; an empty reply comes back unchanged. */
  function Formatted(text: string): (r: string)
    ensures text == "" ==> r == ""
  {
    if text == "" then text
    else Join("\n\n", FormatAll(Group(Split(Strip(text), ". "), Strip, Closes)))
  }

  /** The sentence loop of `format_response` and the append of the unfinished paragraph after it. */
  method GroupSentences(sentences: seq<string>) returns (paragraphs: seq<string>)
    ensures paragraphs == Group(sentences, Strip, Closes)
  {
    paragraphs := [];
    var current := "";
    for i := 0 to |sentences|
      invariant Grouping(current, paragraphs) == Walk(sentences, i, Strip, Closes)
    {
      ghost var before := Grouping(current, paragraphs);
      var sentence := Strip(sentences[i]);
      if sentence == "" {
        assert Step(before, sentences, i, Strip, Closes) == before;
        continue;
      }
      if i < |sentences| - 1 && !EndsWith(sentence, ".") {
        sentence := sentence + ".";
      }
      assert sentence == Sentence(sentences, i, Strip);
      current := current + sentence + " ";
      if |Split(current, ". ")| >= 3 || HasCue(Lower(sentence)) {
        paragraphs := paragraphs + [Strip(current)];
        current := "";
      }
      assert Grouping(current, paragraphs) == Step(before, sentences, i, Strip, Closes);
    }
    if Strip(current) != "" {
      paragraphs := paragraphs + [Strip(current)];
    }
  }

  /** The list loop of `format_response`. */
  method FormatParagraphs(paragraphs: seq<string>) returns (formatted: seq<string>)
    ensures formatted == FormatAll(paragraphs)
  {
    formatted := [];
    for j := 0 to |paragraphs|
      invariant formatted == FormatAll(paragraphs[..j])
    {
      assert paragraphs[..j + 1][..j] == paragraphs[..j];
      formatted := formatted + [FormatParagraph(paragraphs[j])];
    }
    assert paragraphs[..|paragraphs|] == paragraphs;
  }

  /** `format_response(response_text)` */
  method FormatResponse(text: string) returns (r: string)
    ensures r == Formatted(text)
  {
    if text == "" {
      return text;
    }
    var sentences := Split(Strip(text), ". ");
    var paragraphs := GroupSentences(sentences);
    var formatted := FormatParagraphs(paragraphs);
    return Join("\n\n", formatted);
  }

  // ---------------------------------------------------------------------
  // No text is lost, reordered or left with stray whitespace

  /** The non-blank sentences among the first `k`, as they are appended. */
  function Appended(sentences: seq<string>, k: nat, strip: string -> string): seq<string>
    requires k <= |sentences|
  {
    if k == 0 then [] else Appended(sentences, k - 1, strip) + Added(sentences, k - 1, strip)
  }

  /** What turn `i` appends: nothing for a blank sentence. */
  function Added(sentences: seq<string>, i: nat, strip: string -> string): seq<string>
    requires i < |sentences|
  {
    if strip(sentences[i]) == "" then [] else [Sentence(sentences, i, strip)]
  }

  /** Each of `ps` followed by a space. */
  function Spaced(ps: seq<string>): string {
    if ps == [] then "" else ps[0] + " " + Spaced(ps[1..])
  }

  /** Neither empty nor starting or ending with whitespace. */
  predicate Tidy(p: string) {
    p != "" && !IsSpace(p[0]) && !IsSpace(p[|p| - 1])
  }

  /** A paragraph under construction: tidy text followed by one space. */
  predicate Open(c: string) {
    |c| >= 2 && !IsSpace(c[0]) && c[|c| - 1] == ' ' && !IsSpace(c[|c| - 2])
  }

  /**
    What the proofs use of `strip`: it returns a slice of its argument that
    is empty or tidy, and it drops just the space after open paragraph text.
   */
  ghost predicate Stripping(strip: string -> string) {
    forall s {:trigger StripsTo(s, strip(s))} :: StripsTo(s, strip(s))
  }

  /** `r` is a slice of `s` that is empty or tidy, and just `s` without its last space when `s` is open paragraph text. */
  predicate StripsTo(s: string, r: string) {
    Contains(s, r) && (r != "" ==> Tidy(r)) && (Open(s) ==> r == s[..|s| - 1])
  }

  /** `str.strip` has these properties. */
  lemma StripStripping()
    ensures Stripping(Strip)
  {
    forall s ensures StripsTo(s, Strip(s)) {
      StripFacts(s);
    }
  }

  lemma StripFacts(s: string)
    ensures Contains(s, Strip(s))
    ensures Strip(s) != "" ==> Tidy(Strip(s))
    ensures Open(s) ==> Strip(s) == s[..|s| - 1]
  {
    StripSlice(s);
    if Open(s) {
      OpenStrip(s);
    }
  }

  lemma OpenStrip(c: string)
    requires Open(c)
    ensures Strip(c) == c[..|c| - 1]
  {
    assert LStrip(c) == c;
    assert RStrip(c[..|c| - 1]) == c[..|c| - 1];
  }

  lemma {:induction false} SpacedSnoc(ps: seq<string>, p: string)
    ensures Spaced(ps + [p]) == Spaced(ps) + p + " "
  {
    if ps == [] {
      assert [p][1..] == [];
    } else {
      assert (ps + [p])[1..] == ps[1..] + [p];
      SpacedSnoc(ps[1..], p);
    }
  }

  lemma {:induction false} SpacedJoin(ps: seq<string>)
    requires ps != []
    ensures Spaced(ps) == Join(" ", ps) + " "
  {
    if |ps| > 1 {
      SpacedJoin(ps[1..]);
    }
  }

  lemma SentenceTidy(sentences: seq<string>, i: nat, strip: string -> string)
    requires i < |sentences| && strip(sentences[i]) != "" && Stripping(strip)
    ensures Tidy(Sentence(sentences, i, strip))
  {
    var s := strip(sentences[i]);
    assert StripsTo(sentences[i], s);
    if i < |sentences| - 1 && !EndsWith(s, ".") {
      var t := s + ".";
      assert t[0] == s[0] && t[|t| - 1] == '.';
    }
  }

  /**
    What every turn of the loop keeps, with `done` the sentences appended so
    far: the closed paragraphs and the open one still spell them out, the
    open one is empty or tidy text and a space, the closed ones are tidy, and
    there are no more paragraphs than sentences.
   */
  predicate Holds(g: Grouping, done: seq<string>) {
    Spaced(g.closed) + g.current == Spaced(done) &&
    (g.current == "" || Open(g.current)) &&
    (forall j :: 0 <= j < |g.closed| ==> Tidy(g.closed[j])) &&
    |g.closed| + (if g.current == "" then 0 else 1) <= |done|
  }

  /** Appending a tidy sentence and a space to the open paragraph keeps `Holds`. */
  lemma HoldsAppend(g: Grouping, done: seq<string>, sentence: string)
    requires Holds(g, done) && Tidy(sentence)
    ensures Holds(Grouping(g.current + sentence + " ", g.closed), done + [sentence])
  {
    var current := g.current + sentence + " ";
    assert current[|current| - 2] == sentence[|sentence| - 1];
    assert current[0] == if g.current == "" then sentence[0] else g.current[0];
    SpacedSnoc(done, sentence);
    Sequences.Regroup(Spaced(g.closed), g.current, sentence);
    Sequences.Regroup(Spaced(g.closed), g.current + sentence, " ");
  }

  /** Closing a non-empty open paragraph, stripped, keeps `Holds`. */
  lemma HoldsClose(g: Grouping, done: seq<string>, strip: string -> string)
    requires Holds(g, done) && g.current != "" && Stripping(strip)
    ensures Holds(Grouping("", g.closed + [strip(g.current)]), done)
  {
    var p := strip(g.current);
    assert StripsTo(g.current, p);
    assert p + " " == g.current;
    SpacedSnoc(g.closed, p);
    var closed := g.closed + [p];
    assert forall j :: 0 <= j < |g.closed| ==> closed[j] == g.closed[j];
  }

  lemma HoldsStep(g: Grouping, done: seq<string>, sentence: string, closing: bool, strip: string -> string)
    requires Holds(g, done) && Tidy(sentence) && Stripping(strip)
    ensures var current := g.current + sentence + " ";
      Holds(if closing then Grouping("", g.closed + [strip(current)]) else Grouping(current, g.closed), done + [sentence])
  {
    var current := g.current + sentence + " ";
    HoldsAppend(g, done, sentence);
    if closing {
      HoldsClose(Grouping(current, g.closed), done + [sentence], strip);
    }
  }

  lemma StepHolds(g: Grouping, done: seq<string>, sentences: seq<string>, i: nat,
                  strip: string -> string, closes: (string, string) -> bool)
    requires i < |sentences| && Stripping(strip) && Holds(g, done)
    ensures Holds(Step(g, sentences, i, strip, closes), done + Added(sentences, i, strip))
  {
    if strip(sentences[i]) == "" {
      assert done + [] == done;
    } else {
      var sentence := Sentence(sentences, i, strip);
      SentenceTidy(sentences, i, strip);
      var current := g.current + sentence + " ";
      HoldsStep(g, done, sentence, closes(current, sentence), strip);
    }
  }

  lemma {:induction false} WalkHolds(sentences: seq<string>, k: nat, strip: string -> string, closes: (string, string) -> bool)
    requires k <= |sentences| && Stripping(strip)
    ensures Holds(Walk(sentences, k, strip, closes), Appended(sentences, k, strip))
  {
    if k > 0 {
      WalkHolds(sentences, k - 1, strip, closes);
      WalkStepHolds(sentences, k, strip, closes);
    }
  }

  lemma WalkStepHolds(sentences: seq<string>, k: nat, strip: string -> string, closes: (string, string) -> bool)
    requires 0 < k <= |sentences| && Stripping(strip)
    requires Holds(Walk(sentences, k - 1, strip, closes), Appended(sentences, k - 1, strip))
    ensures Holds(Walk(sentences, k, strip, closes), Appended(sentences, k, strip))
  {
    var g := Walk(sentences, k - 1, strip, closes);
    var done := Appended(sentences, k - 1, strip);
    assert Walk(sentences, k, strip, closes) == Step(g, sentences, k - 1, strip, closes);
    assert Appended(sentences, k, strip) == done + Added(sentences, k - 1, strip);
    StepHolds(g, done, sentences, k - 1, strip, closes);
  }

  /**
    Whatever the closing rule, the paragraphs are tidy, there are no more of
    them than non-blank sentences, and read one after another, a space
    apart, they give back the sentences in their order.
   */
  lemma {:induction false} GroupKeepsText(sentences: seq<string>, strip: string -> string, closes: (string, string) -> bool)
    requires Stripping(strip)
    ensures forall j :: 0 <= j < |Group(sentences, strip, closes)| ==> Tidy(Group(sentences, strip, closes)[j])
    ensures |Group(sentences, strip, closes)| <= |Appended(sentences, |sentences|, strip)|
    ensures Join(" ", Group(sentences, strip, closes)) == Join(" ", Appended(sentences, |sentences|, strip))
  {
    var all := Appended(sentences, |sentences|, strip);
    WalkHolds(sentences, |sentences|, strip, closes);
    HoldsFinal(Walk(sentences, |sentences|, strip, closes), all, strip);
    SpacedSameJoin(Group(sentences, strip, closes), all);
  }

  /** Closing the paragraph left open at the end keeps the text and leaves only tidy paragraphs. */
  lemma HoldsFinal(g: Grouping, done: seq<string>, strip: string -> string)
    requires Holds(g, done) && Stripping(strip)
    ensures var ps := if strip(g.current) != "" then g.closed + [strip(g.current)] else g.closed;
      (forall j :: 0 <= j < |ps| ==> Tidy(ps[j])) && |ps| <= |done| && Spaced(ps) == Spaced(done)
  {
    var p := strip(g.current);
    assert StripsTo(g.current, p);
    if g.current != "" {
      assert p == g.current[..|g.current| - 1] && p != "";
      HoldsClose(g, done, strip);
    } else {
      assert p == "";
      assert Spaced(g.closed) + g.current == Spaced(g.closed);
    }
  }

  /** Parts that read the same with a space after each read the same joined by spaces. */
  lemma SpacedSameJoin(ps: seq<string>, qs: seq<string>)
    requires Spaced(ps) == Spaced(qs)
    ensures Join(" ", ps) == Join(" ", qs)
  {
    if ps != [] && qs != [] {
      SpacedJoin(ps);
      SpacedJoin(qs);
      assert Join(" ", ps) == Spaced(ps)[..|Spaced(ps)| - 1];
    }
  }

  // ---------------------------------------------------------------------
  // When a paragraph closes

  lemma ContainsPrefix(s: string, t: string, n: nat)
    requires n <= |s| && !Contains(s, t)
    ensures !Contains(s[..n], t)
  {
    forall k | 0 <= k <= n - |t| && OccursAt(s[..n], t, k) ensures false {
      assert s[..n][k..k + |t|] == s[k..k + |t|];
      assert OccursAt(s, t, k);
    }
  }

  lemma ContainsWithin(s: string, u: string, t: string)
    requires Contains(s, u) && Contains(u, t)
    ensures Contains(s, t)
  {
    var i :| 0 <= i <= |s| - |u| && OccursAt(s, u, i);
    var j :| 0 <= j <= |u| - |t| && OccursAt(u, t, j);
    forall m | 0 <= m < |t| ensures s[i + j + m] == t[m] {
      assert s[i + j + m] == u[j + m];
    }
    assert s[i + j..i + j + |t|] == t;
    assert OccursAt(s, t, i + j);
  }

  /** Splitting at ". " stops first right after a text that holds no ". ". */
  lemma SplitAfter(a: string, b: string)
    requires !Contains(a, ". ")
    ensures Split(a + ". " + b, ". ") == [a] + Split(b, ". ")
  {
    var s := a + ". " + b;
    assert OccursAt(s, ". ", |a|);
    var k := Find(s, ". ");
    FindFirst(s, ". ");
    assert k != -1 && k <= |a|;
    assert s[|a|] == '.' && s[k..k + 2] == ". ";
    if k + 2 <= |a| {
      assert s[k..k + 2] == a[k..k + 2];
      assert OccursAt(a, ". ", k);
    }
    assert k == |a|;
    assert s[..k] == a && s[k + 2..] == b;
  }

  lemma SplitEmpty()
    ensures Split("", ". ") == [""]
  {
  }

  /** A closing full stop and the space after it, written as the text before them. */
  lemma SentenceEnd(sentences: seq<string>, i: nat, strip: string -> string)
    requires i < |sentences| - 1 && strip(sentences[i]) != "" && !Contains(sentences[i], ". ") && Stripping(strip)
    ensures var t := Sentence(sentences, i, strip);
      t + " " == t[..|t| - 1] + ". " && !Contains(t[..|t| - 1], ". ")
  {
    var s := strip(sentences[i]);
    var t := Sentence(sentences, i, strip);
    assert StripsTo(sentences[i], s);
    if Contains(s, ". ") {
      ContainsWithin(sentences[i], s, ". ");
    }
    if EndsWith(s, ".") {
      ContainsPrefix(s, ". ", |s| - 1);
    } else {
      assert t[..|t| - 1] == s;
    }
  }

  /**
    A non-final sentence appended to an empty paragraph closes it exactly
    when it carries a cue word; otherwise the paragraph is that sentence and
    a space.
   */
  lemma FirstSentenceCloses(g: Grouping, sentences: seq<string>, k: nat, strip: string -> string)
    requires Stripping(strip)
    requires k + 1 < |sentences| && g.current == ""
    requires strip(sentences[k]) != "" && !Contains(sentences[k], ". ")
    ensures var t := Sentence(sentences, k, strip);
      var g' := Step(g, sentences, k, strip, Closes);
      (g'.current == "" <==> HasCue(Lower(t))) && (g'.current != "" ==> g'.current == t + " ")
  {
    var t := Sentence(sentences, k, strip);
    SentenceEnd(sentences, k, strip);
    var a := t[..|t| - 1];
    SplitEmpty();
    SplitAfter(a, "");
    assert "" + t + " " == a + ". " + "";
  }

  /** Two sentences that each end in a full stop, each followed by a space, split at ". " into three pieces. */
  lemma SplitTwoSentences(t1: string, t2: string)
    requires |t1| > 0 && t1 + " " == t1[..|t1| - 1] + ". " && !Contains(t1[..|t1| - 1], ". ")
    requires |t2| > 0 && t2 + " " == t2[..|t2| - 1] + ". " && !Contains(t2[..|t2| - 1], ". ")
    ensures |Split(t1 + " " + t2 + " ", ". ")| == 3
  {
    var a1 := t1[..|t1| - 1];
    var a2 := t2[..|t2| - 1];
    SplitEmpty();
    SplitAfter(a2, "");
    assert a2 + ". " + "" == t2 + " ";
    SplitAfter(a1, t2 + " ");
    assert t1 + " " + t2 + " " == a1 + ". " + (t2 + " ");
  }

  /**
    A second non-final sentence appended to a paragraph of one earlier
    sentence always closes it; blank pieces in between add nothing to the
    paragraph and do not matter.
   */
  lemma SecondSentenceCloses(g: Grouping, sentences: seq<string>, j: nat, k: nat, strip: string -> string)
    requires Stripping(strip)
    requires j < k < |sentences| - 1
    requires strip(sentences[j]) != "" && !Contains(sentences[j], ". ")
    requires strip(sentences[k]) != "" && !Contains(sentences[k], ". ")
    requires g.current == Sentence(sentences, j, strip) + " "
    ensures Step(g, sentences, k, strip, Closes).current == ""
  {
    SentencePairSplits(sentences, j, k, strip);
    var t2 := Sentence(sentences, k, strip);
    assert Closes(g.current + t2 + " ", t2);
  }

  /** Two non-final sentences, each followed by a space, split at ". " into three pieces. */
  lemma SentencePairSplits(sentences: seq<string>, j: nat, k: nat, strip: string -> string)
    requires Stripping(strip)
    requires j < k < |sentences| - 1
    requires strip(sentences[j]) != "" && !Contains(sentences[j], ". ")
    requires strip(sentences[k]) != "" && !Contains(sentences[k], ". ")
    ensures |Split(Sentence(sentences, j, strip) + " " + Sentence(sentences, k, strip) + " ", ". ")| == 3
  {
    SentenceEnd(sentences, j, strip);
    SentenceEnd(sentences, k, strip);
    SplitTwoSentences(Sentence(sentences, j, strip), Sentence(sentences, k, strip));
  }

  // ---------------------------------------------------------------------
  // How a paragraph is presented

  /** The number of times `c` occurs in `s`. */
  function Count(s: string, c: char): nat {
    if s == [] then 0 else (if s[0] == c then 1 else 0) + Count(s[1..], c)
  }

  lemma {:induction false} CountConcat(a: string, b: string, c: char)
    ensures Count(a + b, c) == Count(a, c) + Count(b, c)
  {
    if a == [] {
      assert a + b == b;
    } else {
      assert (a + b)[1..] == a[1..] + b;
      CountConcat(a[1..], b, c);
    }
  }

  lemma {:induction false} CountNone(s: string, c: char)
    requires !Contains(s, [c])
    ensures Count(s, c) == 0
  {
    if s != [] {
      assert !OccursAt(s, [c], 0);
      assert s[..1] == [s[0]];
      forall k | 0 <= k <= |s[1..]| - 1 ensures !OccursAt(s[1..], [c], k) {
        assert !OccursAt(s, [c], k + 1);
        assert s[1..][k..k + 1] == s[k + 1..k + 2];
      }
      CountNone(s[1..], c);
    }
  }

  /** Splitting at a single character gives one piece more than there are occurrences of it. */
  lemma {:induction false} SplitCount(s: string, c: char)
    ensures |Split(s, [c])| == Count(s, c) + 1
    decreases |s|
  {
    var k := Find(s, [c]);
    if k < 0 {
      FindFirst(s, [c]);
      NoOccurrencePrefix(s, [c], |s|);
      assert s[..|s|] == s;
      CountNone(s, c);
    } else {
      FindFirst(s, [c]);
    NoOccurrencePrefix(s, [c], k);
      CountNone(s[..k], c);
      SplitCount(s[k + 1..], c);
      assert s == s[..k] + [c] + s[k + 1..];
      CountConcat(s[..k] + [c], s[k + 1..], c);
      CountConcat(s[..k], [c], c);
    }
  }

  lemma ContainsCount(s: string, c: char)
    ensures Contains(s, [c]) <==> Count(s, c) > 0
  {
    if Contains(s, [c]) {
      var k :| 0 <= k <= |s| - 1 && OccursAt(s, [c], k);
      assert s == s[..k] + [c] + s[k + 1..];
      CountConcat(s[..k] + [c], s[k + 1..], c);
      CountConcat(s[..k], [c], c);
    } else {
      CountNone(s, c);
    }
  }

  /**
    A paragraph with a numbered or bulleted item stays as it is; otherwise
    one with exactly one colon becomes its stripped title, the colon, in
    bold, then a line break and the stripped description; any other stays as
    it is.
   */
  lemma FormatParagraphCases(p: string)
    ensures NumberedItem(p) || BulletItem(p) ==> FormatParagraph(p) == p
    ensures !NumberedItem(p) && !BulletItem(p) && Count(p, ':') == 1 ==>
      var (title, description) := SplitOnce(p, ":");
      p == title + ":" + description && Count(title, ':') == 0 && Count(description, ':') == 0 &&
      FormatParagraph(p) == "**" + Strip(title) + ":**\n" + Strip(description)
    ensures !NumberedItem(p) && !BulletItem(p) && Count(p, ':') != 1 ==> FormatParagraph(p) == p
  {
    SplitCount(p, ':');
    ContainsCount(p, ':');
    if !NumberedItem(p) && !BulletItem(p) && Count(p, ':') == 1 {
      var (title, description) := SplitOnce(p, ":");
      CountNone(title, ':');
      CountConcat(title + ":", description, ':');
      CountConcat(title, ":", ':');
    }
  }

  // ---------------------------------------------------------------------
  // Only a blank reply formats to nothing

  /** Stripped text that is not empty splits at ". " into pieces the last of which is not blank. */
  lemma LastPieceNotBlank(t: string)
    requires Tidy(t)
    ensures Strip(Split(t, ". ")[|Split(t, ". ")| - 1]) != ""
  {
    var pieces := Split(t, ". ");
    var last := pieces[|pieces| - 1];
    LastPieceEnds(t, ". ");
    StripSlice(last);
  }

  /** Split at a separator that ends in a space, text that ends in a non-space has a last piece that ends where the text ends. */
  lemma {:induction false} LastPieceEnds(t: string, sep: string)
    requires t != "" && !IsSpace(t[|t| - 1]) && sep != "" && IsSpace(sep[|sep| - 1])
    ensures var last := Split(t, sep)[|Split(t, sep)| - 1];
      last != "" && last[|last| - 1] == t[|t| - 1]
    decreases |t|
  {
    var k := Find(t, sep);
    if k >= 0 {
      if k + |sep| == |t| {
        SeparatorAtEnd(t, sep, k);
        assert false;
      }
      var rest := t[k + |sep|..];
      assert rest[|rest| - 1] == t[|t| - 1];
      LastPieceEnds(rest, sep);
      assert Split(t, sep) == [t[..k]] + Split(rest, sep);
    }
  }

  lemma SeparatorAtEnd(t: string, sep: string, k: int)
    requires sep != "" && OccursAt(t, sep, k) && k + |sep| == |t|
    ensures t[|t| - 1] == sep[|sep| - 1]
  {
    assert t[|t| - 1] == t[k..k + |sep|][|sep| - 1];
  }

  /** When the last sentence is not blank, it is among those appended. */
  lemma AppendedLast(sentences: seq<string>, strip: string -> string)
    requires sentences != [] && strip(sentences[|sentences| - 1]) != ""
    ensures var all := Appended(sentences, |sentences|, strip);
      all != [] && all[|all| - 1] == Sentence(sentences, |sentences| - 1, strip)
  {
  }

  /** Whatever the closing rule, a non-blank last sentence leaves at least one paragraph. */
  lemma GroupNotEmpty(sentences: seq<string>, strip: string -> string, closes: (string, string) -> bool)
    requires Stripping(strip)
    requires sentences != [] && strip(sentences[|sentences| - 1]) != ""
    ensures Group(sentences, strip, closes) != []
    ensures forall j :: 0 <= j < |Group(sentences, strip, closes)| ==> Tidy(Group(sentences, strip, closes)[j])
  {
    AppendedLast(sentences, strip);
    var all := Appended(sentences, |sentences|, strip);
    JoinNonEmpty(" ", all);
    GroupKeepsText(sentences, strip, closes);
  }

  lemma FormatParagraphNotEmpty(p: string)
    requires p != ""
    ensures FormatParagraph(p) != ""
  {
  }

  /** The last formatted paragraph is the last paragraph, formatted. */
  lemma FormatAllLast(ps: seq<string>)
    requires ps != []
    ensures FormatAll(ps)[|ps| - 1] == FormatParagraph(ps[|ps| - 1])
  {
  }

  /** A reply that is blank formats to the empty text. */
  lemma BlankFormatsEmpty(text: string)
    requires forall k :: 0 <= k < |text| ==> IsSpace(text[k])
    ensures Formatted(text) == ""
  {
    if text != "" {
      StripSlice(text);
      SplitEmpty();
      var g := Walk([""], 1, Strip, Closes);
      assert Strip("") == "";
      assert g == Grouping("", []);
    }
  }

  /** A reply with some non-whitespace character formats to a non-empty text. */
  lemma TextFormatsNotEmpty(text: string)
    requires exists k :: 0 <= k < |text| && !IsSpace(text[k])
    ensures Formatted(text) != ""
  {
    StripSlice(text);
    var t := Strip(text);
    LastPieceNotBlank(t);
    var sentences := Split(t, ". ");
    StripStripping();
    GroupNotEmpty(sentences, Strip, Closes);
    var ps := Group(sentences, Strip, Closes);
    FormatParagraphNotEmpty(ps[|ps| - 1]);
    FormatAllLast(ps);
    JoinNonEmpty("\n\n", FormatAll(ps));
  }

  /** `format_response` returns an empty text exactly when the reply is blank. */
  lemma FormattedEmpty(text: string)
    ensures Formatted(text) == "" <==> forall k :: 0 <= k < |text| ==> IsSpace(text[k])
  {
    if forall k :: 0 <= k < |text| ==> IsSpace(text[k]) {
      BlankFormatsEmpty(text);
    } else {
      TextFormatsNotEmpty(text);
    }
  }
}
