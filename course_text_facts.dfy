/**
  What the flattened course text promises: the segments keep their fixed
  order, each label's segment comes from its own field and from nothing else,
  an absent or empty field only omits its segment, and the first field of the
  wrong shape decides the error.
 */
module CourseTextFacts {
  import opened Wrappers
  import opened PyStr
  import opened CourseText
  import Sequences

  // ---------------------------------------------------------------------
  // Segments by label

  /** The segments of `gs` that carry label `l`, in order. */
  function WithLabel(gs: seq<Segment>, l: Label): seq<Segment> {
    if gs == [] then []
    else (if gs[0].heading == l then [gs[0]] else []) + WithLabel(gs[1..], l)
  }

  /** Every segment carrying `l` belongs to `gs`, and every segment of `gs` carrying `l` is kept. */
  lemma {:induction false} WithLabelMembers(gs: seq<Segment>, l: Label)
    ensures forall g :: g in WithLabel(gs, l) <==> g in gs && g.heading == l
  {
    if gs != [] {
      WithLabelMembers(gs[1..], l);
      assert gs == [gs[0]] + gs[1..];
    }
  }

  lemma {:induction false} WithLabelConcat(gs: seq<Segment>, hs: seq<Segment>, l: Label)
    ensures WithLabel(gs + hs, l) == WithLabel(gs, l) + WithLabel(hs, l)
  {
    if gs != [] {
      assert (gs + hs)[1..] == gs[1..] + hs;
      WithLabelConcat(gs[1..], hs, l);
      var head := if gs[0].heading == l then [gs[0]] else [];
      Sequences.Regroup(head, WithLabel(gs[1..], l), WithLabel(hs, l));
    } else {
      assert gs + hs == hs;
    }
  }

  lemma RankInjective(l: Label, k: Label)
    ensures Rank(l) == Rank(k) <==> l == k
  {
  }

  /** At most one segment, and it carries the label of rank `r`. */
  predicate HeadedBy(gs: seq<Segment>, r: nat) {
    |gs| <= 1 && forall i :: 0 <= i < |gs| ==> Rank(gs[i].heading) == r
  }

  /** Step `k` of `rs` yields at most one segment, labelled with rank `base + k`. */
  predicate Labelled(rs: seq<Result<seq<Segment>>>, base: nat) {
    forall k :: 0 <= k < |rs| && rs[k].Ok? ==> HeadedBy(rs[k].value, base + k)
  }

  lemma LabelledTail(rs: seq<Result<seq<Segment>>>, base: nat)
    requires rs != [] && AllOk(rs) && Labelled(rs, base)
    ensures AllOk(rs[1..]) && Labelled(rs[1..], base + 1)
  {
    assert forall k :: 0 <= k < |rs| - 1 ==> rs[1..][k] == rs[k + 1];
  }

  /** The segments of labelled steps have ranks within the steps' range, in increasing order. */
  lemma {:induction false} ValuesInOrder(rs: seq<Result<seq<Segment>>>, base: nat)
    requires AllOk(rs) && Labelled(rs, base)
    ensures forall i :: 0 <= i < |Values(rs)| ==> base <= Rank(Values(rs)[i].heading) < base + |rs|
    ensures InOrder(Values(rs))
  {
    if rs != [] {
      LabelledTail(rs, base);
      ValuesInOrder(rs[1..], base + 1);
      var a: seq<Segment>, b: seq<Segment> := rs[0].value, Values(rs[1..]);
      assert HeadedBy(a, base);
      assert Values(rs) == a + b;
      forall i | 0 <= i < |a + b| ensures base <= Rank((a + b)[i].heading) < base + |rs| {
        if i >= |a| {
          assert (a + b)[i] == b[i - |a|];
        }
      }
      forall i, j | 0 <= i < j < |a + b| ensures Rank((a + b)[i].heading) < Rank((a + b)[j].heading) {
        assert (a + b)[j] == b[j - |a|];
        if i >= |a| {
          assert (a + b)[i] == b[i - |a|];
        }
      }
    }
  }

  lemma HeadWithLabel(a: seq<Segment>, base: nat, l: Label)
    requires HeadedBy(a, base)
    ensures WithLabel(a, l) == if Rank(l) == base then a else []
  {
    if a != [] {
      RankInjective(a[0].heading, l);
      assert a[1..] == [];
    }
  }

  /** The segments of labelled steps that carry `l` are exactly those of the step of rank `l`. */
  lemma {:induction false} ValuesWithLabel(rs: seq<Result<seq<Segment>>>, base: nat, l: Label)
    requires AllOk(rs) && Labelled(rs, base)
    ensures WithLabel(Values(rs), l) == if base <= Rank(l) < base + |rs| then rs[Rank(l) - base].value else []
  {
    if rs != [] {
      LabelledTail(rs, base);
      ValuesWithLabel(rs[1..], base + 1, l);
      var a := rs[0].value;
      assert HeadedBy(a, base);
      WithLabelConcat(a, Values(rs[1..]), l);
      HeadWithLabel(a, base, l);
      if base < Rank(l) < base + |rs| {
        assert rs[1..][Rank(l) - (base + 1)] == rs[Rank(l) - base];
      }
    }
  }

  // ---------------------------------------------------------------------
  // Each step yields at most its own label

  lemma OptionalHeaded(l: Label, v: Value)
    ensures HeadedBy(Optional(l, v), Rank(l))
  {
  }

  lemma ResultadosHeaded(es: seq<(string, Value)>)
    ensures ResultadosSegment(es).Ok? ==> HeadedBy(ResultadosSegment(es).value, 5)
  {
  }

  lemma ContenidosHeaded(es: seq<(string, Value)>)
    ensures ContenidosSegment(es).Ok? ==> HeadedBy(ContenidosSegment(es).value, 6)
  {
  }

  lemma MetodologiasHeaded(es: seq<(string, Value)>)
    ensures MetodologiasSegment(es).Ok? ==> HeadedBy(MetodologiasSegment(es).value, 7)
  {
  }

  lemma EvaluacionHeaded(es: seq<(string, Value)>)
    ensures EvaluacionSegment(es).Ok? ==> HeadedBy(EvaluacionSegment(es).value, 8)
  {
  }

  lemma BibliografiaHeaded(es: seq<(string, Value)>)
    ensures BibliografiaSegment(es).Ok? ==> HeadedBy(BibliografiaSegment(es).value, 9)
  {
    var texts := AllBibTexts(es);
    if texts.Ok? && texts.value != [] {
      var joined := JoinStrs(Take(texts.value, 5));
      if joined.Ok? {
        assert BibliografiaSegment(es) == Ok([Segment(Bibliografia, joined.value)]);
      }
    }
  }

  lemma StepsLabelled(es: seq<(string, Value)>, m: seq<(string, Value)>)
    ensures Labelled(Steps(es, m), 0)
  {
    var rs := Steps(es, m);
    StepsAre(es, m, rs);
    forall k | 0 <= k < |rs| && rs[k].Ok? ensures HeadedBy(rs[k].value, k) {
      if k == 0 {
        OptionalHeaded(Curso, Field(m, "nombre"));
      } else if k == 1 {
        OptionalHeaded(Codigo, Field(m, "codigo"));
      } else if k == 2 {
        OptionalHeaded(Disciplina, Field(m, "disciplina"));
      } else if k == 3 {
        OptionalHeaded(Creditos, Field(m, "creditos"));
      } else if k == 4 {
        OptionalHeaded(Descripcion, Field(es, "descripcion"));
      } else if k == 5 {
        ResultadosHeaded(es);
      } else if k == 6 {
        ContenidosHeaded(es);
      } else if k == 7 {
        MetodologiasHeaded(es);
      } else if k == 8 {
        EvaluacionHeaded(es);
      } else {
        BibliografiaHeaded(es);
      }
    }
  }

  // ---------------------------------------------------------------------
  // The segments of a record

  /** A record that is a mapping with a mapping (or nothing) under `metadata` runs all ten steps. */
  lemma SegmentsRun(info: Value)
    requires info.Dict? && Metadata(info.entries).Ok?
    ensures Segments(info) == RunSteps(Steps(info.entries, Metadata(info.entries).value))
  {
  }

  /** A record is flattened exactly when it is a mapping, its metadata is a mapping and no step raises. */
  lemma SegmentsSucceed(info: Value)
    ensures Segments(info).Ok? <==>
      info.Dict? && Metadata(info.entries).Ok? && AllOk(Steps(info.entries, Metadata(info.entries).value))
  {
    if info.Dict? && Metadata(info.entries).Ok? {
      RunStepsOk(Steps(info.entries, Metadata(info.entries).value));
    }
  }

  /** The first step that raises decides the error of the whole record. */
  lemma SegmentsFirstError(info: Value, k: nat)
    requires info.Dict? && Metadata(info.entries).Ok?
    requires k < 10
    requires var rs := Steps(info.entries, Metadata(info.entries).value);
      rs[k].Err? && forall j :: 0 <= j < k ==> rs[j].Ok?
    ensures Segments(info) == Err(Steps(info.entries, Metadata(info.entries).value)[k].error)
  {
    RunStepsFirstError(Steps(info.entries, Metadata(info.entries).value), k);
  }

  /** The segments come in the fixed order of their labels, each label at most once. */
  lemma SegmentsInOrder(info: Value)
    requires Segments(info).Ok?
    ensures InOrder(Segments(info).value)
    ensures |Segments(info).value| <= 10
  {
    var m := Metadata(info.entries).value;
    var rs := Steps(info.entries, m);
    RunStepsOk(rs);
    StepsLabelled(info.entries, m);
    ValuesInOrder(rs, 0);
    var gs := Values(rs);
    if |gs| > 10 {
      assert forall i :: 0 <= i < |gs| ==> Rank(gs[i].heading) < 10;
      var i := 0;
      while i < 10
        invariant 0 <= i <= 10
        invariant Rank(gs[i].heading) >= i
      {
        assert Rank(gs[i + 1].heading) > Rank(gs[i].heading);
        i := i + 1;
      }
      assert false;
    }
  }

  /** The segments labelled `l` are exactly what the step of that label yields. */
  lemma SectionOf(info: Value, l: Label)
    requires Segments(info).Ok?
    ensures info.Dict? && Metadata(info.entries).Ok? && AllOk(Steps(info.entries, Metadata(info.entries).value))
    ensures WithLabel(Segments(info).value, l) == Steps(info.entries, Metadata(info.entries).value)[Rank(l)].value
  {
    var m := Metadata(info.entries).value;
    var rs := Steps(info.entries, m);
    RunStepsOk(rs);
    StepsLabelled(info.entries, m);
    ValuesWithLabel(rs, 0, l);
  }

  // ---------------------------------------------------------------------
  // What each label's segment holds

  /** Each metadata label holds `str()` of its metadata field when that field is truthy, and is absent otherwise. */
  lemma MetadataSection(info: Value, l: Label)
    requires Segments(info).Ok? && Rank(l) < 4
    ensures info.Dict? && Metadata(info.entries).Ok?
    ensures var v := Field(Metadata(info.entries).value, MetaKey(l));
      WithLabel(Segments(info).value, l) == if Truthy(v) then [Segment(l, ToStr(v))] else []
  {
    var es := info.entries;
    var m := Metadata(es).value;
    var rs := Steps(es, m);
    SectionOf(info, l);
    assert WithLabel(Segments(info).value, l) == rs[Rank(l)].value;
    StepsAre(es, m, rs);
  }

  /** The description segment holds `str()` of the `descripcion` field when it is truthy. */
  lemma DescripcionSection(info: Value)
    requires Segments(info).Ok?
    ensures info.Dict?
    ensures var v := Field(info.entries, "descripcion");
      WithLabel(Segments(info).value, Descripcion) == if Truthy(v) then [Segment(Descripcion, ToStr(v))] else []
  {
    var es := info.entries;
    var m := Metadata(es).value;
    var rs := Steps(es, m);
    SectionOf(info, Descripcion);
    assert WithLabel(Segments(info).value, Descripcion) == rs[4].value;
    StepsAre(es, m, rs);
  }

  /** The learning outcomes are the strings the field iterates over, joined by spaces; present only when the field is truthy. */
  lemma ResultadosSection(info: Value)
    requires Segments(info).Ok?
    ensures info.Dict?
    ensures var v := Field(info.entries, "resultados_aprendizaje");
      var ws := WithLabel(Segments(info).value, Resultados);
      (!Truthy(v) ==> ws == []) &&
      (Truthy(v) ==> Iterate(v).Some? && AllStr(Iterate(v).value) &&
                     ws == [Segment(Resultados, Join(" ", Strs(Iterate(v).value)))])
  {
    var es := info.entries;
    var m := Metadata(es).value;
    var rs := Steps(es, m);
    SectionOf(info, Resultados);
    assert WithLabel(Segments(info).value, Resultados) == rs[5].value;
    StepsAre(es, m, rs);
  }

  /** The contents segment joins the collected titles; it is present only for a non-empty mapping with some title. */
  lemma ContenidosSection(info: Value)
    requires Segments(info).Ok?
    ensures info.Dict?
    ensures var v := Field(info.entries, "contenidos");
      var ws := WithLabel(Segments(info).value, Contenidos);
      if Truthy(v) && v.Dict? && ContentTitles(v.entries) != [] then
        AllStr(ContentTitles(v.entries)) && ws == [Segment(Contenidos, Join(" ", Strs(ContentTitles(v.entries))))]
      else ws == []
  {
    var es := info.entries;
    var m := Metadata(es).value;
    var rs := Steps(es, m);
    SectionOf(info, Contenidos);
    assert WithLabel(Segments(info).value, Contenidos) == rs[6].value;
    StepsAre(es, m, rs);
  }

  /** The methodologies segment joins the items of a non-empty list; any other value is ignored. */
  lemma MetodologiasSection(info: Value)
    requires Segments(info).Ok?
    ensures info.Dict?
    ensures var v := Field(info.entries, "metodologias");
      var ws := WithLabel(Segments(info).value, Metodologias);
      if Truthy(v) && v.List? then AllStr(v.items) && ws == [Segment(Metodologias, Join(" ", Strs(v.items)))]
      else ws == []
  {
    var es := info.entries;
    var m := Metadata(es).value;
    var rs := Steps(es, m);
    SectionOf(info, Metodologias);
    assert WithLabel(Segments(info).value, Metodologias) == rs[7].value;
    StepsAre(es, m, rs);
  }

  /** The evaluation segment joins the evaluation items of a non-empty mapping, and is absent when there are none. */
  lemma EvaluacionSection(info: Value)
    requires Segments(info).Ok?
    ensures info.Dict?
    ensures var v := Field(info.entries, "evaluacion");
      var ws := WithLabel(Segments(info).value, Evaluacion);
      if Truthy(v) && v.Dict? then
        EvaluationItems(v.entries).Ok? &&
        var items := EvaluationItems(v.entries).value;
        ws == if items == [] then [] else [Segment(Evaluacion, Join(" ", items))]
      else ws == []
  {
    var es := info.entries;
    var m := Metadata(es).value;
    var rs := Steps(es, m);
    SectionOf(info, Evaluacion);
    assert WithLabel(Segments(info).value, Evaluacion) == rs[8].value;
    StepsAre(es, m, rs);
  }

  /** The bibliography segment joins the first five collected references, and is absent when there are none. */
  lemma BibliografiaSection(info: Value)
    requires Segments(info).Ok?
    ensures info.Dict? && AllBibTexts(info.entries).Ok?
    ensures var texts := AllBibTexts(info.entries).value;
      var ws := WithLabel(Segments(info).value, Bibliografia);
      if texts == [] then ws == []
      else AllStr(Take(texts, 5)) && ws == [Segment(Bibliografia, Join(" ", Strs(Take(texts, 5))))]
  {
    var es := info.entries;
    var m := Metadata(es).value;
    var rs := Steps(es, m);
    SectionOf(info, Bibliografia);
    assert WithLabel(Segments(info).value, Bibliografia) == rs[9].value;
    StepsAre(es, m, rs);
  }

  /** Every segment's rendering appears in the flattened text. */
  lemma CourseTextHasSegments(info: Value)
    requires Segments(info).Ok?
    ensures CourseToText(info).Ok?
    ensures forall g :: g in Segments(info).value ==> Contains(CourseToText(info).value, Render(g))
  {
    var gs := Segments(info).value;
    forall g | g in gs ensures Contains(CourseToText(info).value, Render(g)) {
      var i :| 0 <= i < |gs| && gs[i] == g;
      JoinContains(" ", Rendered(gs), i);
    }
  }

  /** A record with no fields at all flattens to the empty text. */
  lemma EmptyRecordIsEmpty()
    ensures CourseToText(Dict([])) == Ok("")
  {
    var none: Result<seq<Segment>> := Ok([]);
    assert ResultadosSegment([]) == none && ContenidosSegment([]) == none && MetodologiasSegment([]) == none;
    assert EvaluacionSegment([]) == none;
    assert BibliografiaSegment([]) == none;
    var rs := Steps([], []);
    assert rs == [none, none, none, none, none, none, none, none, none, none];
    ValuesEmpty(rs);
    RunStepsOk(rs);
  }

  lemma {:induction false} ValuesEmpty(rs: seq<Result<seq<Segment>>>)
    requires forall k :: 0 <= k < |rs| ==> rs[k] == Ok([])
    ensures AllOk(rs) && Values(rs) == []
  {
    if rs != [] {
      ValuesEmpty(rs[1..]);
    }
  }

  // ---------------------------------------------------------------------
  // The loops behind the segments

  /** The titles of a contents mapping are those of its entries, in order. */
  lemma {:induction false} ContentTitlesConcat(a: seq<(string, Value)>, b: seq<(string, Value)>)
    ensures ContentTitles(a + b) == ContentTitles(a) + ContentTitles(b)
  {
    if b == [] {
      assert a + b == a;
    } else {
      var b' := b[..|b| - 1];
      var e := b[|b| - 1];
      assert b == b' + [e];
      assert a + b == (a + b') + [e];
      ContentTitlesConcat(a, b');
      ContentTitlesSnoc(a + b', e);
      ContentTitlesSnoc(b', e);
      Sequences.Regroup(ContentTitles(a), ContentTitles(b'), EntryTitles(e.1));
    }
  }

  lemma ContentTitlesSnoc(es: seq<(string, Value)>, e: (string, Value))
    ensures ContentTitles(es + [e]) == ContentTitles(es) + EntryTitles(e.1)
  {
    assert (es + [e])[..|es|] == es;
  }

  /** One evaluation item per entry of the mapping, in the mapping's order. */
  lemma {:induction false} EvalItemsEach(es: seq<(string, Value)>, percent: bool)
    ensures |EvalItems(es, percent)| == |es|
    ensures forall i :: 0 <= i < |es| ==> EvalItems(es, percent)[i] == EvalItem(es[i], percent)
  {
    if es != [] {
      EvalItemsEach(es[..|es| - 1], percent);
    }
  }

  lemma {:induction false} BibTextsConcat(a: seq<Value>, b: seq<Value>)
    ensures BibTexts(a + b) == BibTexts(a) + BibTexts(b)
  {
    if b == [] {
      assert a + b == a;
    } else {
      var b' := b[..|b| - 1];
      assert (a + b)[..|a + b| - 1] == a + b';
      BibTextsConcat(a, b');
    }
  }

  /** Every collected reference is the truthy `raw_text` of some mapping among the entries. */
  lemma {:induction false} BibTextsFromEntries(entries: seq<Value>)
    ensures forall t :: t in BibTexts(entries) ==>
      Truthy(t) && exists e :: e in entries && e.Dict? && Field(e.entries, "raw_text") == t
  {
    if entries != [] {
      var init := entries[..|entries| - 1];
      BibTextsFromEntries(init);
      forall t | t in BibTexts(entries) ensures Truthy(t) && exists e :: e in entries && e.Dict? && Field(e.entries, "raw_text") == t {
        if t in BibTexts(init) {
          var e :| e in init && e.Dict? && Field(e.entries, "raw_text") == t;
          assert e in entries;
        } else {
          assert entries[|entries| - 1] in entries;
        }
      }
    }
  }

  /** Entries that are mappings with a truthy `raw_text` each contribute it, in order. */
  lemma {:induction false} BibTextsAllReferences(entries: seq<Value>)
    requires forall i :: 0 <= i < |entries| ==> entries[i].Dict? && Truthy(Field(entries[i].entries, "raw_text"))
    ensures |BibTexts(entries)| == |entries|
    ensures forall i :: 0 <= i < |entries| ==> BibTexts(entries)[i] == Field(entries[i].entries, "raw_text")
  {
    if entries != [] {
      BibTextsAllReferences(entries[..|entries| - 1]);
    }
  }
}
