/**
  The corpus builder of generate_mia_embeddings.py (`create_embeddings_csv`):
  every course record is flattened, only texts with more than 50 characters
  once stripped are kept with their course codes, the kept texts are sent to
  the embedding service in batches of 100, a batch whose call fails gets
  1536-dimensional zero vectors instead, and the three columns become one
  table.
 */
module Corpus {
  import opened Wrappers
  import opened PyStr
  import opened CourseText

  /** How many texts one call to the embedding service carries. */
  const BatchSize: nat := 100

  /** The length of the vectors the embedding model returns, and of the zero vectors that replace a failed batch. */
  const Dimension: nat := 1536

  /** The length a stripped text must exceed for its course to be kept. */
  const MinLength: nat := 50

  type Vector = seq<real>

  /**
    One call of the embedding service on a batch of texts: the list of vectors
    it answered with, or None when the call raised.
   */
  type EmbeddingService = seq<string> -> Option<seq<Vector>>

  /** The two parallel columns the selection loop fills. */
  datatype Selection = Selection(texts: seq<string>, codes: seq<string>)

  /** One row of the table: a kept text, its vector and its course code. */
  datatype Row = Row(text: string, embedding: Vector, courseCode: string)

  predicate Kept(text: string) {
    |Strip(text)| > MinLength
  }

  // ---------------------------------------------------------------------
  // Selecting the courses

  /** Each course's code with the text its record flattens to, or the error flattening raises. */
  function Flattened(courses: seq<(string, Value)>): (fs: seq<(string, Result<string>)>)
    ensures |fs| == |courses|
    ensures forall j :: 0 <= j < |courses| ==> fs[j] == (courses[j].0, CourseToText(courses[j].1))
  {
    seq(|courses|, j requires 0 <= j < |courses| => (courses[j].0, CourseToText(courses[j].1)))
  }

  /** The columns after the loop over the flattened courses, or the first error met. */
  function Select(fs: seq<(string, Result<string>)>, keep: string -> bool): Result<Selection> {
    if fs == [] then Ok(Selection([], []))
    else
      var prev :- Select(fs[..|fs| - 1], keep);
      var (code, flattened) := fs[|fs| - 1];
      var text :- flattened;
      Ok(if keep(text) then Selection(prev.texts + [text], prev.codes + [code]) else prev)
  }

  /** The columns `create_embeddings_csv` builds from the courses, in the order of the catalogue. */
  function Selected(courses: seq<(string, Value)>): Result<Selection> {
    Select(Flattened(courses), Kept)
  }

  lemma SelectStep(fs: seq<(string, Result<string>)>, keep: string -> bool, i: nat)
    requires i < |fs|
    ensures Select(fs[..i + 1], keep) ==
      match Select(fs[..i], keep)
      case Err(e) => Err(e)
      case Ok(prev) =>
        match fs[i].1
        case Err(e) => Err(e)
        case Ok(text) => Ok(if keep(text) then Selection(prev.texts + [text], prev.codes + [fs[i].0]) else prev)
  {
    var pre := fs[..i + 1];
    assert pre[..|pre| - 1] == fs[..i];
    assert pre[|pre| - 1] == fs[i];
  }

  /** `for course_code, course_info in courses_data.items()`: flatten each record, keep the long enough texts. */
  method SelectCourses(courses: seq<(string, Value)>) returns (r: Result<Selection>)
    ensures r == Selected(courses)
  {
    ghost var fs := Flattened(courses);
    var texts: seq<string> := [];
    var courseCodes: seq<string> := [];
    var i := 0;
    while i < |courses|
      invariant 0 <= i <= |courses|
      invariant Select(fs[..i], Kept) == Ok(Selection(texts, courseCodes))
    {
      var (courseCode, courseInfo) := courses[i];
      SelectStep(fs, Kept, i);
      var text := ProcessCourseToText(courseInfo);
      if text.Err? {
        FailedPrefix(fs, Kept, i + 1);
        return Err(text.error);
      }
      if |Strip(text.value)| > 50 {
        texts := texts + [text.value];
        courseCodes := courseCodes + [courseCode];
      }
      i := i + 1;
    }
    assert fs[..i] == fs;
    return Ok(Selection(texts, courseCodes));
  }

  /** Once a prefix fails, the whole loop fails with the same error. */
  lemma {:induction false} FailedPrefix(fs: seq<(string, Result<string>)>, keep: string -> bool, n: nat)
    requires n <= |fs| && Select(fs[..n], keep).Err?
    ensures Select(fs, keep) == Select(fs[..n], keep)
    decreases |fs| - n
  {
    if n == |fs| {
      assert fs[..n] == fs;
    } else {
      SelectStep(fs, keep, n);
      FailedPrefix(fs, keep, n + 1);
    }
  }

  /** The two columns stay parallel and hold only texts that pass `keep`. */
  lemma {:induction false} SelectColumns(fs: seq<(string, Result<string>)>, keep: string -> bool)
    requires Select(fs, keep).Ok?
    ensures |Select(fs, keep).value.texts| == |Select(fs, keep).value.codes| <= |fs|
    ensures forall t :: t in Select(fs, keep).value.texts ==> keep(t)
  {
    if fs != [] {
      SelectColumns(fs[..|fs| - 1], keep);
    }
  }

  /** A (text, code) row is selected exactly when some course with that code flattens to that text and the text is kept. */
  lemma {:induction false} SelectRows(fs: seq<(string, Result<string>)>, keep: string -> bool, text: string, code: string)
    requires Select(fs, keep).Ok?
    ensures var s := Select(fs, keep).value;
      |s.texts| == |s.codes| &&
      ((exists i :: 0 <= i < |s.texts| && s.texts[i] == text && s.codes[i] == code) <==>
       (exists j :: 0 <= j < |fs| && fs[j] == (code, Ok(text)) && keep(text)))
  {
    if fs != [] {
      var init := fs[..|fs| - 1];
      SelectColumns(fs, keep);
      SelectColumns(init, keep);
      SelectRows(init, keep, text, code);
      var p := Select(init, keep).value;
      var s := Select(fs, keep).value;
      assert forall j :: 0 <= j < |init| ==> init[j] == fs[j];
      if exists i :: 0 <= i < |s.texts| && s.texts[i] == text && s.codes[i] == code {
        var i :| 0 <= i < |s.texts| && s.texts[i] == text && s.codes[i] == code;
        if i < |p.texts| {
          assert p.texts[i] == text && p.codes[i] == code;
        } else {
          assert fs[|fs| - 1] == (code, Ok(text));
        }
      }
      if exists j :: 0 <= j < |fs| && fs[j] == (code, Ok(text)) && keep(text) {
        var j :| 0 <= j < |fs| && fs[j] == (code, Ok(text)) && keep(text);
        if j < |init| {
          var i :| 0 <= i < |p.texts| && p.texts[i] == text && p.codes[i] == code;
          assert s.texts[i] == text && s.codes[i] == code;
        } else {
          assert s.texts[|p.texts|] == text && s.codes[|p.texts|] == code;
        }
      }
    }
  }

  /** The loop fails exactly when some record fails, and then with the error of the first one that does. */
  lemma {:induction false} SelectFails(fs: seq<(string, Result<string>)>, keep: string -> bool)
    ensures Select(fs, keep).Err? <==> exists j :: 0 <= j < |fs| && fs[j].1.Err?
    ensures Select(fs, keep).Err? ==>
      exists j :: 0 <= j < |fs| && fs[j].1 == Err(Select(fs, keep).error) && forall k :: 0 <= k < j ==> fs[k].1.Ok?
  {
    if fs != [] {
      var init := fs[..|fs| - 1];
      SelectFails(init, keep);
      assert forall k :: 0 <= k < |init| ==> init[k] == fs[k];
      var last := |fs| - 1;
      if Select(init, keep).Err? {
        assert Select(fs, keep) == Select(init, keep);
        var j :| 0 <= j < |init| && init[j].1 == Err(Select(init, keep).error) && forall k :: 0 <= k < j ==> init[k].1.Ok?;
        assert fs[j].1 == Err(Select(fs, keep).error) && forall k :: 0 <= k < j ==> fs[k].1.Ok?;
      } else if fs[last].1.Err? {
        assert Select(fs, keep) == Err(fs[last].1.error);
        assert forall k :: 0 <= k < last ==> fs[k].1.Ok?;
      } else {
        assert Select(fs, keep).Ok?;
        assert forall k :: 0 <= k < |fs| ==> fs[k].1.Ok?;
      }
    }
  }

  /** The positions of the records whose text is kept, in catalogue order. */
  function KeptIndices(fs: seq<(string, Result<string>)>, keep: string -> bool): seq<nat> {
    if fs == [] then []
    else
      var last := |fs| - 1;
      KeptIndices(fs[..last], keep) + (if fs[last].1.Ok? && keep(fs[last].1.value) then [last] else [])
  }

  /** The kept positions strictly increase and are exactly those of the records whose text is kept. */
  lemma {:induction false} KeptIndicesExact(fs: seq<(string, Result<string>)>, keep: string -> bool)
    ensures var idx := KeptIndices(fs, keep);
      (forall i :: 0 <= i < |idx| ==> idx[i] < |fs|) &&
      (forall i, j :: 0 <= i < j < |idx| ==> idx[i] < idx[j]) &&
      (forall j :: 0 <= j < |fs| ==> (j in idx <==> fs[j].1.Ok? && keep(fs[j].1.value)))
  {
    if fs != [] {
      var init := fs[..|fs| - 1];
      KeptIndicesExact(init, keep);
      assert forall j :: 0 <= j < |init| ==> init[j] == fs[j];
    }
  }

  /** Row `i` of the selection is the record at the `i`-th kept position. */
  lemma {:induction false} SelectInOrder(fs: seq<(string, Result<string>)>, keep: string -> bool)
    requires Select(fs, keep).Ok?
    ensures var s := Select(fs, keep).value;
      var idx := KeptIndices(fs, keep);
      |idx| == |s.texts| == |s.codes| &&
      forall i :: 0 <= i < |idx| ==> idx[i] < |fs| && fs[idx[i]] == (s.codes[i], Ok(s.texts[i]))
  {
    if fs != [] {
      var init := fs[..|fs| - 1];
      SelectInOrder(init, keep);
      KeptIndicesExact(init, keep);
      assert forall j :: 0 <= j < |init| ==> init[j] == fs[j];
    }
  }

  /**
    The selected rows are the kept courses in catalogue order, each once:
    row `i` comes from the course at the `i`-th kept position, the positions
    strictly increase, and every course whose text is kept has one.
   */
  lemma SelectedInOrder(courses: seq<(string, Value)>)
    requires Selected(courses).Ok?
    ensures var s := Selected(courses).value;
      var idx := KeptIndices(Flattened(courses), Kept);
      |idx| == |s.texts| == |s.codes| &&
      (forall i, j :: 0 <= i < j < |idx| ==> idx[i] < idx[j]) &&
      (forall i :: 0 <= i < |idx| ==>
         idx[i] < |courses| && courses[idx[i]].0 == s.codes[i] && CourseToText(courses[idx[i]].1) == Ok(s.texts[i])) &&
      (forall j :: 0 <= j < |courses| ==>
         (j in idx <==> CourseToText(courses[j].1).Ok? && Kept(CourseToText(courses[j].1).value)))
  {
    var fs := Flattened(courses);
    SelectInOrder(fs, Kept);
    KeptIndicesExact(fs, Kept);
  }

  /** The selection of the courses, stated record by record. */
  lemma SelectedCourses(courses: seq<(string, Value)>, text: string, code: string)
    ensures Selected(courses).Err? <==> exists j :: 0 <= j < |courses| && CourseToText(courses[j].1).Err?
    ensures Selected(courses).Ok? ==>
      var s := Selected(courses).value;
      |s.texts| == |s.codes| <= |courses| &&
      (forall t :: t in s.texts ==> |Strip(t)| > 50) &&
      ((exists i :: 0 <= i < |s.texts| && s.texts[i] == text && s.codes[i] == code) <==>
       (exists j :: 0 <= j < |courses| && courses[j].0 == code && CourseToText(courses[j].1) == Ok(text) && Kept(text)))
  {
    var fs := Flattened(courses);
    SelectFails(fs, Kept);
    if Select(fs, Kept).Ok? {
      SelectColumns(fs, Kept);
      SelectRows(fs, Kept, text, code);
    }
  }

  // ---------------------------------------------------------------------
  // Embedding in batches

  function Min(a: int, b: int): int {
    if a < b then a else b
  }

  /** `[0.0] * 1536` */
  function ZeroVector(): (v: Vector)
    ensures |v| == Dimension && forall i :: 0 <= i < |v| ==> v[i] == 0.0
  {
    seq(Dimension, i => 0.0)
  }

  /** `[[0.0] * 1536] * n` */
  function Zeros(n: nat): (r: seq<Vector>)
    ensures |r| == n && forall k :: 0 <= k < n ==> r[k] == ZeroVector()
  {
    seq(n, k => ZeroVector())
  }

  /** What one batch adds to `embeddings`: the service's vectors, or zero vectors when the call raised. */
  function BatchEmbeddings(batch: seq<string>, embed: EmbeddingService): seq<Vector> {
    match embed(batch)
    case Some(vs) => vs
    case None => Zeros(|batch|)
  }

  /** The batches `texts[i:i + 100]` for `i` in `range(0, len(texts), 100)`. */
  function Batches(texts: seq<string>): seq<seq<string>>
    decreases |texts|
  {
    if texts == [] then []
    else
      var n := Min(BatchSize, |texts|);
      [texts[..n]] + Batches(texts[n..])
  }

  /** `embeddings` after the loop over the batches of `texts`. */
  function EmbeddedFrom(texts: seq<string>, embed: EmbeddingService): seq<Vector>
    decreases |texts|
  {
    if texts == [] then []
    else
      var n := Min(BatchSize, |texts|);
      BatchEmbeddings(texts[..n], embed) + EmbeddedFrom(texts[n..], embed)
  }

  lemma EmbeddedStep(texts: seq<string>, i: nat, embed: EmbeddingService)
    requires i < |texts|
    ensures EmbeddedFrom(texts[i..], embed) ==
      BatchEmbeddings(texts[i..Min(i + BatchSize, |texts|)], embed) + EmbeddedFrom(texts[Min(i + BatchSize, |texts|)..], embed)
  {
    var rest := texts[i..];
    assert rest[..Min(BatchSize, |rest|)] == texts[i..Min(i + BatchSize, |texts|)];
    assert rest[Min(BatchSize, |rest|)..] == texts[Min(i + BatchSize, |texts|)..];
  }

  /** The batch loop of `create_embeddings_csv`. */
  method EmbedTexts(texts: seq<string>, embed: EmbeddingService) returns (embeddings: seq<Vector>)
    ensures embeddings == EmbeddedFrom(texts, embed)
  {
    embeddings := [];
    var i := 0;
    while i < |texts|
      invariant 0 <= i
      invariant embeddings + EmbeddedFrom(texts[Min(i, |texts|)..], embed) == EmbeddedFrom(texts, embed)
      decreases |texts| - i
    {
      var next := Min(i + BatchSize, |texts|);
      var batch := texts[i..next];
      EmbeddedStep(texts, i, embed);
      var response := embed(batch);
      var vectors;
      if response.Some? {
        vectors := response.value;
      } else {
        vectors := Zeros(|batch|);
      }
      assert vectors == BatchEmbeddings(batch, embed);
      ghost var later := EmbeddedFrom(texts[next..], embed);
      assert embeddings + (vectors + later) == (embeddings + vectors) + later;
      embeddings := embeddings + vectors;
      i := i + BatchSize;
    }
    assert texts[Min(i, |texts|)..] == [];
  }

  /** The batches cover the texts in order; all of them hold 100 texts except a shorter last one. */
  lemma {:induction false} BatchesCover(texts: seq<string>)
    ensures Flatten(Batches(texts)) == texts
    ensures |Batches(texts)| == (|texts| + BatchSize - 1) / BatchSize
    ensures forall k :: 0 <= k < |Batches(texts)| ==> 0 < |Batches(texts)[k]| <= BatchSize
    ensures forall k :: 0 <= k < |Batches(texts)| - 1 ==> |Batches(texts)[k]| == BatchSize
    decreases |texts|
  {
    if texts != [] {
      var n := Min(BatchSize, |texts|);
      BatchesCover(texts[n..]);
      assert texts == texts[..n] + texts[n..];
      var bs := Batches(texts);
      assert forall k :: 1 <= k < |bs| ==> bs[k] == Batches(texts[n..])[k - 1];
    }
  }

  function Flatten<T>(xss: seq<seq<T>>): seq<T> {
    if xss == [] then [] else xss[0] + Flatten(xss[1..])
  }

  /** The vectors of each batch in turn. */
  function EmbedBatches(batches: seq<seq<string>>, embed: EmbeddingService): seq<Vector> {
    if batches == [] then [] else BatchEmbeddings(batches[0], embed) + EmbedBatches(batches[1..], embed)
  }

  /** The embeddings are those of the batches, one batch after the other. */
  lemma {:induction false} EmbeddedByBatch(texts: seq<string>, embed: EmbeddingService)
    ensures EmbeddedFrom(texts, embed) == EmbedBatches(Batches(texts), embed)
    decreases |texts|
  {
    if texts != [] {
      var n := Min(BatchSize, |texts|);
      EmbeddedByBatch(texts[n..], embed);
      assert Batches(texts) == [texts[..n]] + Batches(texts[n..]);
      assert Batches(texts)[1..] == Batches(texts[n..]);
    }
  }

  /** The service answers every batch it does not fail on with one vector per text. */
  ghost predicate WellBehaved(embed: EmbeddingService) {
    forall batch :: embed(batch).Some? ==> |embed(batch).value| == |batch|
  }

  /** With a well-behaved service there is one vector per text. */
  lemma {:induction false} EmbeddedLength(texts: seq<string>, embed: EmbeddingService)
    requires WellBehaved(embed)
    ensures |EmbeddedFrom(texts, embed)| == |texts|
    decreases |texts|
  {
    if texts != [] {
      var n := Min(BatchSize, |texts|);
      EmbeddedLength(texts[n..], embed);
    }
  }

  /** When every call raises, each text gets the 1536-dimensional zero vector. */
  lemma {:induction false} AllBatchesFail(texts: seq<string>, embed: EmbeddingService)
    requires forall batch :: embed(batch).None?
    ensures EmbeddedFrom(texts, embed) == Zeros(|texts|)
    decreases |texts|
  {
    if texts != [] {
      var n := Min(BatchSize, |texts|);
      AllBatchesFail(texts[n..], embed);
      var z := Zeros(n) + Zeros(|texts| - n);
      assert forall k :: 0 <= k < |texts| ==> z[k] == ZeroVector();
    }
  }

  // ---------------------------------------------------------------------
  // The table

  /** `pd.DataFrame({'text': ..., 'embedding': ..., 'course_code': ...})`: columns of unequal length raise ValueError. */
  function Table(texts: seq<string>, embeddings: seq<Vector>, codes: seq<string>): (r: Result<seq<Row>>)
    ensures r.Ok? <==> |texts| == |embeddings| == |codes|
    ensures r.Ok? ==>
      |r.value| == |texts| && forall i :: 0 <= i < |texts| ==> r.value[i] == Row(texts[i], embeddings[i], codes[i])
  {
    if |texts| == |embeddings| == |codes| then
      Ok(seq(|texts|, i requires 0 <= i < |texts| => Row(texts[i], embeddings[i], codes[i])))
    else Err(ValueError)
  }

  /** The table `create_embeddings_csv` writes, or the error that stops it. */
  function EmbeddingsTable(courses: seq<(string, Value)>, embed: EmbeddingService): Result<seq<Row>> {
    var s :- Selected(courses);
    Table(s.texts, EmbeddedFrom(s.texts, embed), s.codes)
  }

  /** `create_embeddings_csv`: the rows it would write. */
  method CreateEmbeddingsTable(courses: seq<(string, Value)>, embed: EmbeddingService) returns (r: Result<seq<Row>>)
    ensures r == EmbeddingsTable(courses, embed)
  {
    var selection := SelectCourses(courses);
    if selection.Err? {
      return Err(selection.error);
    }
    var embeddings := EmbedTexts(selection.value.texts, embed);
    r := Table(selection.value.texts, embeddings, selection.value.codes);
  }

  /**
    With a well-behaved service the table is built whenever every record
    flattens, and holds one row per kept course, with its text and code.
   */
  lemma TableRows(courses: seq<(string, Value)>, embed: EmbeddingService)
    requires WellBehaved(embed)
    ensures EmbeddingsTable(courses, embed).Ok? <==> Selected(courses).Ok?
    ensures EmbeddingsTable(courses, embed).Ok? ==>
      var s := Selected(courses).value;
      var rows := EmbeddingsTable(courses, embed).value;
      |rows| == |s.texts| && forall i :: 0 <= i < |rows| ==> rows[i].text == s.texts[i] && rows[i].courseCode == s.codes[i]
  {
    if Selected(courses).Ok? {
      SelectColumns(Flattened(courses), Kept);
      EmbeddedLength(Selected(courses).value.texts, embed);
    }
  }
}
