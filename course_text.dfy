/**
  The course-record flattener of generate_mia_embeddings.py
  (`process_course_to_text`): one loosely shaped course record, as parsed from
  the catalogue's JSON, becomes one text made of labelled segments in a fixed
  order. A field that is absent or empty only omits its segment; a field of
  the wrong shape makes Python raise, and the model returns that error.
 */
module CourseText {
  import opened Wrappers
  import opened PyStr

  /**
    A value parsed by `json.load`. A number is carried as the text `str()`
    prints for it; a mapping is the list of its entries in insertion order.
   */
  datatype Value =
    | Null
    | Bool(b: bool)
    | Num(text: string)
    | Str(s: string)
    | List(items: seq<Value>)
    | Dict(entries: seq<(string, Value)>)

  /** Python truthiness: `None`, `False`, zero and empty containers are false. */
  predicate Truthy(v: Value) {
    match v
    case Null => false
    case Bool(b) => b
    case Num(t) => !(t == "0" || t == "0.0" || t == "-0.0")
    case Str(s) => s != ""
    case List(xs) => xs != []
    case Dict(es) => es != []
  }

  /** `d[key]` when present: the value of the first entry with that key. */
  function Get(es: seq<(string, Value)>, key: string): Option<Value> {
    if es == [] then None
    else if es[0].0 == key then Some(es[0].1)
    else Get(es[1..], key)
  }

  /** `key in d` */
  predicate HasKey(es: seq<(string, Value)>, key: string) {
    Get(es, key).Some?
  }

  /** `d.get(key, default)` */
  function GetOr(es: seq<(string, Value)>, key: string, default: Value): Value {
    match Get(es, key)
    case Some(v) => v
    case None => default
  }

  /** `d.get(key)` */
  function Field(es: seq<(string, Value)>, key: string): Value {
    GetOr(es, key, Null)
  }

  /** `str(v)`, as an f-string renders a value. */
  function ToStr(v: Value): string {
    if v.Str? then v.s else Repr(v)
  }

  /** `repr(v)`, with strings always in single quotes and without escapes. */
  function Repr(v: Value): string
    decreases v
  {
    match v
    case Null => "None"
    case Bool(b) => if b then "True" else "False"
    case Num(t) => t
    case Str(s) => "'" + s + "'"
    case List(xs) => "[" + Join(", ", seq(|xs|, i requires 0 <= i < |xs| => Repr(xs[i]))) + "]"
    case Dict(es) =>
      "{" + Join(", ", seq(|es|, i requires 0 <= i < |es| => "'" + es[i].0 + "': " + Repr(es[i].1))) + "}"
  }

  /** `iter(v)`: a list yields its items, a mapping its keys, a string its characters. */
  function Iterate(v: Value): (r: Option<seq<Value>>)
    ensures r.Some? <==> v.List? || v.Dict? || v.Str?
  {
    match v
    case List(xs) => Some(xs)
    case Dict(es) => Some(seq(|es|, i requires 0 <= i < |es| => Str(es[i].0)))
    case Str(s) => Some(seq(|s|, i requires 0 <= i < |s| => Str([s[i]])))
    case _ => None
  }

  predicate AllStr(vs: seq<Value>) {
    forall i :: 0 <= i < |vs| ==> vs[i].Str?
  }

  function Strs(vs: seq<Value>): (r: seq<string>)
    requires AllStr(vs)
    ensures |r| == |vs| && forall i :: 0 <= i < |vs| ==> vs[i] == Str(r[i])
  {
    seq(|vs|, i requires 0 <= i < |vs| => vs[i].s)
  }

  /** `' '.join(vs)`: raises TypeError unless every item is a string. */
  function JoinStrs(vs: seq<Value>): (r: Result<string>)
    ensures r.Ok? <==> AllStr(vs)
  {
    if AllStr(vs) then Ok(Join(" ", Strs(vs))) else Err(TypeError)
  }

  /** `xs[:n]` for a non-negative `n`. */
  function Take<T>(xs: seq<T>, n: nat): (r: seq<T>)
    ensures |r| == (if |xs| <= n then |xs| else n) && r <= xs
    ensures |xs| <= n ==> r == xs
  {
    if |xs| <= n then xs else xs[..n]
  }

  // ---------------------------------------------------------------------
  // The segments of the flattened text

  datatype Label =
    | Curso | Codigo | Disciplina | Creditos | Descripcion
    | Resultados | Contenidos | Metodologias | Evaluacion | Bibliografia

  /** The position of each label in the fixed order of segments. */
  function Rank(l: Label): nat {
    match l
    case Curso => 0
    case Codigo => 1
    case Disciplina => 2
    case Creditos => 3
    case Descripcion => 4
    case Resultados => 5
    case Contenidos => 6
    case Metodologias => 7
    case Evaluacion => 8
    case Bibliografia => 9
  }

  function Prefix(l: Label): string {
    match l
    case Curso => "Curso: "
    case Codigo => "Código: "
    case Disciplina => "Disciplina: "
    case Creditos => "Créditos: "
    case Descripcion => "Descripción: "
    case Resultados => "Resultados de aprendizaje: "
    case Contenidos => "Contenidos: "
    case Metodologias => "Metodologías: "
    case Evaluacion => "Evaluación: "
    case Bibliografia => "Bibliografía: "
  }

  datatype Segment = Segment(heading: Label, body: string)

  /** The entry of `parts` a segment becomes. */
  function Render(g: Segment): string {
    Prefix(g.heading) + g.body
  }

  function Rendered(gs: seq<Segment>): (r: seq<string>)
    ensures |r| == |gs| && forall i :: 0 <= i < |gs| ==> r[i] == Render(gs[i])
  {
    seq(|gs|, i requires 0 <= i < |gs| => Render(gs[i]))
  }

  /** Labels strictly increase along the segments. */
  predicate InOrder(gs: seq<Segment>) {
    forall i, j :: 0 <= i < j < |gs| ==> Rank(gs[i].heading) < Rank(gs[j].heading)
  }

  /** A segment with label `l` and body `str(v)` when `v` is truthy. */
  function Optional(l: Label, v: Value): seq<Segment> {
    if Truthy(v) then [Segment(l, ToStr(v))] else []
  }

  /** The metadata key behind each of the four metadata labels. */
  function MetaKey(l: Label): string
    requires Rank(l) < 4
  {
    match l
    case Curso => "nombre"
    case Codigo => "codigo"
    case Disciplina => "disciplina"
    case Creditos => "creditos"
  }

  function MetaSegments(m: seq<(string, Value)>): seq<Segment> {
    Optional(Curso, Field(m, "nombre")) + Optional(Codigo, Field(m, "codigo")) +
    Optional(Disciplina, Field(m, "disciplina")) + Optional(Creditos, Field(m, "creditos"))
  }

  /** `course_info.get('metadata', {})`, which must be a mapping for `.get` to work on it. */
  function Metadata(es: seq<(string, Value)>): Result<seq<(string, Value)>> {
    var m := GetOr(es, "metadata", Dict([]));
    if m.Dict? then Ok(m.entries) else Err(AttributeError)
  }

  function ResultadosSegment(es: seq<(string, Value)>): Result<seq<Segment>> {
    var v := Field(es, "resultados_aprendizaje");
    if !Truthy(v) then Ok([])
    else if Iterate(v).None? then Err(TypeError)
    else
      var s :- JoinStrs(Iterate(v).value);
      Ok([Segment(Resultados, s)])
  }

  /** The titles that the subsections mapping of one contents entry contributes. */
  function SubTitles(subs: seq<(string, Value)>): seq<Value> {
    if subs == [] then []
    else
      var sv := subs[|subs| - 1].1;
      SubTitles(subs[..|subs| - 1]) +
      (if sv.Dict? && HasKey(sv.entries, "titulo") then [Get(sv.entries, "titulo").value] else [])
  }

  /** The titles one value of the contents mapping contributes. */
  function EntryTitles(v: Value): seq<Value> {
    if v.Dict? && HasKey(v.entries, "titulo") then
      var sub := Get(v.entries, "subsecciones");
      [Get(v.entries, "titulo").value] +
      (if sub.Some? && sub.value.Dict? then SubTitles(sub.value.entries) else [])
    else if v.Str? then [v]
    else []
  }

  /** `contenidos_text` after the loop over a contents mapping. */
  function ContentTitles(es: seq<(string, Value)>): seq<Value> {
    if es == [] then []
    else ContentTitles(es[..|es| - 1]) + EntryTitles(es[|es| - 1].1)
  }

  function ContenidosSegment(es: seq<(string, Value)>): Result<seq<Segment>> {
    var v := Field(es, "contenidos");
    if !(Truthy(v) && v.Dict?) then Ok([])
    else
      var titles := ContentTitles(v.entries);
      if titles == [] then Ok([])
      else
        var s :- JoinStrs(titles);
        Ok([Segment(Contenidos, s)])
  }

  function MetodologiasSegment(es: seq<(string, Value)>): Result<seq<Segment>> {
    var v := Field(es, "metodologias");
    if !(Truthy(v) && v.List?) then Ok([])
    else
      var s :- JoinStrs(v.items);
      Ok([Segment(Metodologias, s)])
  }

  /** One evaluation item: "item weight%" under the `items` key, "item weight" in a flat mapping. */
  function EvalItem(e: (string, Value), percent: bool): string {
    e.0 + " " + ToStr(e.1) + (if percent then "%" else "")
  }

  /** `eval_items` after the loop over an evaluation mapping. */
  function EvalItems(es: seq<(string, Value)>, percent: bool): seq<string> {
    if es == [] then []
    else EvalItems(es[..|es| - 1], percent) + [EvalItem(es[|es| - 1], percent)]
  }

  /** The evaluation items, or the AttributeError of calling `.items()` on a non-mapping. */
  function EvaluationItems(ev: seq<(string, Value)>): Result<seq<string>> {
    if HasKey(ev, "items") then
      var items := Get(ev, "items").value;
      if items.Dict? then Ok(EvalItems(items.entries, true)) else Err(AttributeError)
    else Ok(EvalItems(ev, false))
  }

  function EvaluacionSegment(es: seq<(string, Value)>): Result<seq<Segment>> {
    var v := Field(es, "evaluacion");
    if !(Truthy(v) && v.Dict?) then Ok([])
    else
      var items :- EvaluationItems(v.entries);
      Ok(if items == [] then [] else [Segment(Evaluacion, Join(" ", items))])
  }

  /** `course_info.get('bibliography') or course_info.get('bibliografia', {})` */
  function Bibliography(es: seq<(string, Value)>): Value {
    var first := Field(es, "bibliography");
    if Truthy(first) then first else GetOr(es, "bibliografia", Dict([]))
  }

  /** The `raw_text` values a bibliography category contributes to `bib_texts`. */
  function BibTexts(entries: seq<Value>): seq<Value> {
    if entries == [] then []
    else
      var e := entries[|entries| - 1];
      BibTexts(entries[..|entries| - 1]) +
      (if e.Dict? && Truthy(Field(e.entries, "raw_text")) then [Field(e.entries, "raw_text")] else [])
  }

  /** The entries of one bibliography category, or the TypeError of iterating a non-iterable. */
  function Category(b: seq<(string, Value)>, key: string): Result<seq<Value>> {
    var c := Iterate(GetOr(b, key, List([])));
    if c.Some? then Ok(c.value) else Err(TypeError)
  }

  /** All of `bib_texts`: the `minima` entries first, then the `complementaria` ones. */
  function AllBibTexts(es: seq<(string, Value)>): Result<seq<Value>> {
    var b := Bibliography(es);
    if !b.Dict? then Err(AttributeError)
    else
      var minima :- Category(b.entries, "minima");
      var complementaria :- Category(b.entries, "complementaria");
      Ok(BibTexts(minima) + BibTexts(complementaria))
  }

  function BibliografiaSegment(es: seq<(string, Value)>): Result<seq<Segment>> {
    var texts :- AllBibTexts(es);
    if texts == [] then Ok([])
    else
      var s :- JoinStrs(Take(texts, 5));
      Ok([Segment(Bibliografia, s)])
  }

  /**
    The ten steps of the source, in the order it runs them; each yields at
    most one segment, or raises.
   */
  function Steps(es: seq<(string, Value)>, m: seq<(string, Value)>): (rs: seq<Result<seq<Segment>>>)
    ensures |rs| == 10
  {
    [Ok(Optional(Curso, Field(m, "nombre"))), Ok(Optional(Codigo, Field(m, "codigo"))),
     Ok(Optional(Disciplina, Field(m, "disciplina"))), Ok(Optional(Creditos, Field(m, "creditos"))),
     Ok(Optional(Descripcion, Field(es, "descripcion"))),
     ResultadosSegment(es), ContenidosSegment(es), MetodologiasSegment(es),
     EvaluacionSegment(es), BibliografiaSegment(es)]
  }

  /** Runs the steps in order: the first error stops the run, otherwise their segments are concatenated. */
  function RunSteps(rs: seq<Result<seq<Segment>>>): Result<seq<Segment>> {
    if rs == [] then Ok([])
    else
      var gs :- rs[0];
      var rest :- RunSteps(rs[1..]);
      Ok(gs + rest)
  }

  /** The segments of a record, in their fixed order, or the error Python raises on it. */
  function Segments(info: Value): Result<seq<Segment>> {
    if !info.Dict? then Err(AttributeError)
    else
      var m :- Metadata(info.entries);
      RunSteps(Steps(info.entries, m))
  }

  /** `process_course_to_text(course_code, course_info)`: the segments joined by single spaces. */
  function CourseToText(info: Value): Result<string> {
    var gs :- Segments(info);
    Ok(Join(" ", Rendered(gs)))
  }

  predicate AllOk(rs: seq<Result<seq<Segment>>>) {
    forall k :: 0 <= k < |rs| ==> rs[k].Ok?
  }

  /** The concatenated segments of steps that all succeeded. */
  function Values(rs: seq<Result<seq<Segment>>>): seq<Segment>
    requires AllOk(rs)
  {
    if rs == [] then [] else rs[0].value + Values(rs[1..])
  }

  lemma {:induction false} RunStepsOk(rs: seq<Result<seq<Segment>>>)
    ensures RunSteps(rs).Ok? <==> AllOk(rs)
    ensures AllOk(rs) ==> RunSteps(rs).value == Values(rs)
  {
    if rs != [] {
      RunStepsOk(rs[1..]);
      assert AllOk(rs) <==> rs[0].Ok? && AllOk(rs[1..]) by {
        assert forall k :: 1 <= k < |rs| ==> rs[k] == rs[1..][k - 1];
      }
    }
  }

  /** The first step that raises decides the error of the whole run. */
  lemma {:induction false} RunStepsFirstError(rs: seq<Result<seq<Segment>>>, k: nat)
    requires k < |rs| && rs[k].Err?
    requires forall j :: 0 <= j < k ==> rs[j].Ok?
    ensures RunSteps(rs) == Err(rs[k].error)
  {
    if k > 0 {
      assert rs[1..][k - 1] == rs[k];
      RunStepsFirstError(rs[1..], k - 1);
    }
  }

  lemma {:induction false} ValuesSnoc(rs: seq<Result<seq<Segment>>>)
    requires rs != [] && AllOk(rs)
    ensures AllOk(rs[..|rs| - 1])
    ensures Values(rs) == Values(rs[..|rs| - 1]) + rs[|rs| - 1].value
  {
    if |rs| > 1 {
      ValuesSnoc(rs[1..]);
      assert rs[1..][..|rs[1..]| - 1] == rs[..|rs| - 1][1..];
    }
  }

  /** `parts` holds the rendering of the segments of the first `k` steps, all of which succeeded. */
  predicate Done(parts: seq<string>, rs: seq<Result<seq<Segment>>>, k: nat) {
    k <= |rs| && AllOk(rs[..k]) && parts == Rendered(Values(rs[..k]))
  }

  lemma DoneStep(parts: seq<string>, rs: seq<Result<seq<Segment>>>, k: nat)
    requires Done(parts, rs, k) && k < |rs| && rs[k].Ok?
    ensures Done(parts + Rendered(rs[k].value), rs, k + 1)
  {
    var pre := rs[..k + 1];
    assert pre[..|pre| - 1] == rs[..k];
    assert AllOk(pre);
    ValuesSnoc(pre);
    RenderedConcat(Values(rs[..k]), rs[k].value);
  }

  // ---------------------------------------------------------------------
  // process_course_to_text, as the source runs it: appending to `parts`

  /** The loop over a `subsecciones` mapping, appending to `titles`. */
  method CollectSubTitles(titles: seq<Value>, subs: seq<(string, Value)>) returns (r: seq<Value>)
    ensures r == titles + SubTitles(subs)
  {
    r := titles;
    var j := 0;
    while j < |subs|
      invariant 0 <= j <= |subs|
      invariant r == titles + SubTitles(subs[..j])
    {
      var subValue := subs[j].1;
      if subValue.Dict? && HasKey(subValue.entries, "titulo") {
        r := r + [Get(subValue.entries, "titulo").value];
      }
      assert subs[..j + 1][..j] == subs[..j];
      j := j + 1;
    }
    assert subs[..j] == subs;
  }

  lemma ContentTitlesStep(es: seq<(string, Value)>, i: nat)
    requires i < |es|
    ensures ContentTitles(es[..i + 1]) == ContentTitles(es[..i]) + EntryTitles(es[i].1)
  {
    assert es[..i + 1][..i] == es[..i];
  }

  /** The body of the loop over a contents mapping: what one entry appends to `titles`. */
  method CollectEntryTitles(titles: seq<Value>, value: Value) returns (r: seq<Value>)
    ensures r == titles + EntryTitles(value)
  {
    r := titles;
    if value.Dict? && HasKey(value.entries, "titulo") {
      r := r + [Get(value.entries, "titulo").value];
      var sub := Get(value.entries, "subsecciones");
      if sub.Some? && sub.value.Dict? {
        r := CollectSubTitles(r, sub.value.entries);
      }
    } else if value.Str? {
      r := r + [value];
    }
  }

  /** The loop over a contents mapping. */
  method CollectContentTitles(es: seq<(string, Value)>) returns (titles: seq<Value>)
    ensures titles == ContentTitles(es)
  {
    titles := [];
    var i := 0;
    while i < |es|
      invariant 0 <= i <= |es|
      invariant titles == ContentTitles(es[..i])
    {
      titles := CollectEntryTitles(titles, es[i].1);
      ContentTitlesStep(es, i);
      i := i + 1;
    }
    assert es[..i] == es;
  }

  /** The loop that renders an evaluation mapping, with or without the percent sign. */
  method CollectEvalItems(es: seq<(string, Value)>, percent: bool) returns (items: seq<string>)
    ensures items == EvalItems(es, percent)
  {
    items := [];
    var i := 0;
    while i < |es|
      invariant 0 <= i <= |es|
      invariant items == EvalItems(es[..i], percent)
    {
      var (item, weight) := es[i];
      items := items + [item + " " + ToStr(weight) + (if percent then "%" else "")];
      assert es[..i + 1][..i] == es[..i];
      i := i + 1;
    }
    assert es[..i] == es;
  }

  /** One loop over a bibliography category, appending to `bibTexts`. */
  method CollectBibTexts(bibTexts: seq<Value>, entries: seq<Value>) returns (r: seq<Value>)
    ensures r == bibTexts + BibTexts(entries)
  {
    r := bibTexts;
    var i := 0;
    while i < |entries|
      invariant 0 <= i <= |entries|
      invariant r == bibTexts + BibTexts(entries[..i])
    {
      var entry := entries[i];
      if entry.Dict? && Truthy(Field(entry.entries, "raw_text")) {
        r := r + [Field(entry.entries, "raw_text")];
      }
      assert entries[..i + 1][..i] == entries[..i];
      i := i + 1;
    }
    assert entries[..i] == entries;
  }

  lemma RenderedConcat(gs: seq<Segment>, hs: seq<Segment>)
    ensures Rendered(gs + hs) == Rendered(gs) + Rendered(hs)
  {
  }

  /** `parts` extended with the rendering of a step's segments, or the step's error. */
  predicate Extends(r: Result<seq<string>>, parts: seq<string>, step: Result<seq<Segment>>) {
    r.Ok? == step.Ok? &&
    (r.Ok? ==> r.value == parts + Rendered(step.value)) &&
    (r.Err? ==> r.error == step.error)
  }

  /** `if v: parts.append(f"<label>: {v}")`, the shape of the metadata and description steps. */
  method AppendIfTruthy(parts: seq<string>, l: Label, v: Value) returns (r: seq<string>)
    ensures r == parts + Rendered(Optional(l, v))
  {
    r := parts;
    if Truthy(v) {
      r := r + [Prefix(l) + ToStr(v)];
    }
  }

  /** The four metadata fields and the description, each appended when truthy. */
  method AppendMetadata(m: seq<(string, Value)>, courseInfo: seq<(string, Value)>, ghost rs: seq<Result<seq<Segment>>>)
    returns (parts: seq<string>)
    requires |rs| >= 5
    requires rs[0] == Ok(Optional(Curso, Field(m, "nombre"))) && rs[1] == Ok(Optional(Codigo, Field(m, "codigo")))
    requires rs[2] == Ok(Optional(Disciplina, Field(m, "disciplina"))) && rs[3] == Ok(Optional(Creditos, Field(m, "creditos")))
    requires rs[4] == Ok(Optional(Descripcion, Field(courseInfo, "descripcion")))
    ensures Done(parts, rs, 5)
  {
    parts := [];
    assert Done(parts, rs, 0);
    parts := AppendIfTruthy(parts, Curso, Field(m, "nombre"));
    DoneStep([], rs, 0);
    var before := parts;
    parts := AppendIfTruthy(parts, Codigo, Field(m, "codigo"));
    DoneStep(before, rs, 1);
    before := parts;
    parts := AppendIfTruthy(parts, Disciplina, Field(m, "disciplina"));
    DoneStep(before, rs, 2);
    before := parts;
    parts := AppendIfTruthy(parts, Creditos, Field(m, "creditos"));
    DoneStep(before, rs, 3);
    before := parts;
    parts := AppendIfTruthy(parts, Descripcion, Field(courseInfo, "descripcion"));
    DoneStep(before, rs, 4);
  }

  method AppendResultados(parts: seq<string>, courseInfo: seq<(string, Value)>) returns (r: Result<seq<string>>)
    ensures Extends(r, parts, ResultadosSegment(courseInfo))
  {
    var resultados := Field(courseInfo, "resultados_aprendizaje");
    if !Truthy(resultados) {
      return Ok(parts);
    }
    var elements := Iterate(resultados);
    if elements.None? {
      return Err(TypeError);
    }
    var joined := JoinStrs(elements.value);
    if joined.Err? {
      return Err(joined.error);
    }
    return Ok(parts + ["Resultados de aprendizaje: " + joined.value]);
  }

  method AppendContenidos(parts: seq<string>, courseInfo: seq<(string, Value)>) returns (r: Result<seq<string>>)
    ensures Extends(r, parts, ContenidosSegment(courseInfo))
  {
    var contenidos := Field(courseInfo, "contenidos");
    if Truthy(contenidos) && contenidos.Dict? {
      var contenidosText := CollectContentTitles(contenidos.entries);
      if contenidosText != [] {
        var joined := JoinStrs(contenidosText);
        if joined.Err? {
          assert ContenidosSegment(courseInfo) == Err(joined.error);
          return Err(joined.error);
        }
        var segment := Segment(Contenidos, joined.value);
        assert ContenidosSegment(courseInfo) == Ok([segment]);
        assert Rendered([segment]) == ["Contenidos: " + joined.value];
        return Ok(parts + ["Contenidos: " + joined.value]);
      }
    }
    assert ContenidosSegment(courseInfo) == Ok([]);
    return Ok(parts);
  }

  method AppendMetodologias(parts: seq<string>, courseInfo: seq<(string, Value)>) returns (r: Result<seq<string>>)
    ensures Extends(r, parts, MetodologiasSegment(courseInfo))
  {
    var metodologias := Field(courseInfo, "metodologias");
    if Truthy(metodologias) && metodologias.List? {
      var joined := JoinStrs(metodologias.items);
      if joined.Err? {
        return Err(joined.error);
      }
      return Ok(parts + ["Metodologías: " + joined.value]);
    }
    return Ok(parts);
  }

  method AppendEvaluacion(parts: seq<string>, courseInfo: seq<(string, Value)>) returns (r: Result<seq<string>>)
    ensures Extends(r, parts, EvaluacionSegment(courseInfo))
  {
    var evaluacion := Field(courseInfo, "evaluacion");
    var evalItems: seq<string> := [];
    if Truthy(evaluacion) && evaluacion.Dict? {
      if HasKey(evaluacion.entries, "items") {
        var items := Get(evaluacion.entries, "items").value;
        if !items.Dict? {
          return Err(AttributeError);
        }
        evalItems := CollectEvalItems(items.entries, true);
      } else {
        evalItems := CollectEvalItems(evaluacion.entries, false);
      }
      assert EvaluationItems(evaluacion.entries) == Ok(evalItems);
    }
    if evalItems != [] {
      return Ok(parts + ["Evaluación: " + Join(" ", evalItems)]);
    }
    return Ok(parts);
  }

  /** The two loops over the bibliography categories, `minima` first. */
  method CollectBibliography(courseInfo: seq<(string, Value)>) returns (r: Result<seq<Value>>)
    ensures r == AllBibTexts(courseInfo)
  {
    var bibliography := Bibliography(courseInfo);
    if !bibliography.Dict? {
      return Err(AttributeError);
    }
    var bibTexts: seq<Value> := [];
    var minima := Iterate(GetOr(bibliography.entries, "minima", List([])));
    if minima.None? {
      return Err(TypeError);
    }
    bibTexts := CollectBibTexts(bibTexts, minima.value);
    var complementaria := Iterate(GetOr(bibliography.entries, "complementaria", List([])));
    if complementaria.None? {
      return Err(TypeError);
    }
    bibTexts := CollectBibTexts(bibTexts, complementaria.value);
    assert bibTexts == BibTexts(minima.value) + BibTexts(complementaria.value);
    return Ok(bibTexts);
  }

  method AppendBibliografia(parts: seq<string>, courseInfo: seq<(string, Value)>) returns (r: Result<seq<string>>)
    ensures Extends(r, parts, BibliografiaSegment(courseInfo))
  {
    var collected := CollectBibliography(courseInfo);
    if collected.Err? {
      return Err(collected.error);
    }
    var bibTexts := collected.value;
    if bibTexts != [] {
      var joined := JoinStrs(Take(bibTexts, 5));
      if joined.Err? {
        return Err(joined.error);
      }
      return Ok(parts + ["Bibliografía: " + joined.value]);
    }
    return Ok(parts);
  }

  /** One step appended to `parts`: the run goes on with the next step, or fails with this step's error. */
  lemma StepOutcome(parts: seq<string>, rs: seq<Result<seq<Segment>>>, k: nat, step: Result<seq<string>>)
    requires Done(parts, rs, k) && k < |rs| && Extends(step, parts, rs[k])
    ensures step.Ok? ==> Done(step.value, rs, k + 1)
    ensures step.Err? ==> RunSteps(rs) == Err(step.error)
  {
    if step.Ok? {
      DoneStep(parts, rs, k);
    } else {
      RunStepsFirstError(rs, k);
    }
  }

  /** How the rendered parts of a run come out: the rendering of its segments, or its error. */
  function RenderRun(run: Result<seq<Segment>>): Result<seq<string>> {
    match run
    case Ok(gs) => Ok(Rendered(gs))
    case Err(e) => Err(e)
  }

  /** The five sections after the description, stopping at the first that raises. */
  method AppendSections(done: seq<string>, courseInfo: seq<(string, Value)>, ghost rs: seq<Result<seq<Segment>>>)
    returns (r: Result<seq<string>>)
    requires |rs| == 10 && Done(done, rs, 5)
    requires rs[5] == ResultadosSegment(courseInfo) && rs[6] == ContenidosSegment(courseInfo)
    requires rs[7] == MetodologiasSegment(courseInfo) && rs[8] == EvaluacionSegment(courseInfo)
    requires rs[9] == BibliografiaSegment(courseInfo)
    ensures r == RenderRun(RunSteps(rs))
  {
    var parts := done;
    var step := AppendResultados(parts, courseInfo);
    StepOutcome(parts, rs, 5, step);
    if step.Err? {
      return Err(step.error);
    }
    parts := step.value;
    step := AppendContenidos(parts, courseInfo);
    StepOutcome(parts, rs, 6, step);
    if step.Err? {
      return Err(step.error);
    }
    parts := step.value;
    step := AppendMetodologias(parts, courseInfo);
    StepOutcome(parts, rs, 7, step);
    if step.Err? {
      return Err(step.error);
    }
    parts := step.value;
    step := AppendEvaluacion(parts, courseInfo);
    StepOutcome(parts, rs, 8, step);
    if step.Err? {
      return Err(step.error);
    }
    parts := step.value;
    step := AppendBibliografia(parts, courseInfo);
    StepOutcome(parts, rs, 9, step);
    if step.Err? {
      return Err(step.error);
    }
    assert rs[..10] == rs;
    RunStepsOk(rs);
    return step;
  }

  lemma StepsAre(es: seq<(string, Value)>, m: seq<(string, Value)>, rs: seq<Result<seq<Segment>>>)
    requires rs == Steps(es, m)
    ensures |rs| == 10
    ensures rs[0] == Ok(Optional(Curso, Field(m, "nombre"))) && rs[1] == Ok(Optional(Codigo, Field(m, "codigo")))
    ensures rs[2] == Ok(Optional(Disciplina, Field(m, "disciplina"))) && rs[3] == Ok(Optional(Creditos, Field(m, "creditos")))
    ensures rs[4] == Ok(Optional(Descripcion, Field(es, "descripcion")))
    ensures rs[5] == ResultadosSegment(es) && rs[6] == ContenidosSegment(es)
    ensures rs[7] == MetodologiasSegment(es) && rs[8] == EvaluacionSegment(es)
    ensures rs[9] == BibliografiaSegment(es)
  {
  }

  /**
    `process_course_to_text`: appends the segments to `parts` in the fixed
    order, stops at the first exception, and joins the parts with spaces.
   */
  method ProcessCourseToText(info: Value) returns (r: Result<string>)
    ensures r == CourseToText(info)
  {
    if !info.Dict? {
      return Err(AttributeError);
    }
    var courseInfo := info.entries;
    var metadata := GetOr(courseInfo, "metadata", Dict([]));
    if !metadata.Dict? {
      return Err(AttributeError);
    }
    var m := metadata.entries;
    ghost var rs := Steps(courseInfo, m);
    StepsAre(courseInfo, m, rs);
    var parts := AppendMetadata(m, courseInfo, rs);

    var rendered := AppendSections(parts, courseInfo, rs);
    if rendered.Err? {
      return Err(rendered.error);
    }
    return Ok(Join(" ", rendered.value));
  }
}
