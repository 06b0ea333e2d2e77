/**
  What the prompt builders `generate_strategies_prompt` and
  `generate_about_topic_prompt` share: the table of self-efficacy levels, the
  lookup `levels[nivel]`, and how an f-string shows the topic. The same table
  is written out in each builder of plataforma/views.py and
  plataforma/views_old.py.
 */
module Prompts {
  import opened Wrappers

  /** The `levels` dictionary: form value to the label the prompt quotes. */
  const Levels: map<string, string> := map[
    "estoy_aprendiendo" := "Estoy aprendiendo",
    "he_escuchado" := "He escuchado del tema",
    "lo_conozco" := "Lo conozco",
    "lo_utilizo" := "Lo conoce y lo utiliza",
    "Conozco_acabadamente_sobre_el_tema" := "Conoce acabadamente sobre el tema"
  ]

  /**
    `levels[nivel]`, where `nivel` is the form field, `None` when the form
    did not send it; a missing or unknown level raises `KeyError`.
   */
  function Level(nivel: Option<string>): (r: Result<string>)
    ensures r.Ok? <==> nivel.Some? && nivel.value in Levels
    ensures r.Ok? ==> r.value == Levels[nivel.value]
    ensures r.Err? ==> r.error == KeyError
  {
    if nivel.Some? && nivel.value in Levels then Ok(Levels[nivel.value]) else Err(KeyError)
  }

  /** How `{tematica}` prints: the text itself, or `None` when the form did not send one. */
  function Shown(tematica: Option<string>): string {
    match tematica
    case Some(t) => t
    case None => "None"
  }

  /** No label holds a single quote, the character the prompts put around it. */
  predicate Unquoted(s: string) {
    forall i :: 0 <= i < |s| ==> s[i] != '\''
  }

  /** Different levels have different labels. */
  lemma LabelsDistinct()
    ensures forall a, b :: a in Levels && b in Levels && Levels[a] == Levels[b] ==> a == b
  {
  }

  /** No label holds a quote. */
  lemma LabelsUnquoted()
    ensures forall a :: a in Levels ==> Unquoted(Levels[a])
  {
  }

  lemma DropPrefix(p: string, a: string, b: string)
    requires p + a == p + b
    ensures a == b
  {
    assert a == (p + a)[|p|..];
    assert b == (p + b)[|p|..];
  }

  lemma DropSuffix(a: string, b: string, s: string)
    requires a + s == b + s
    ensures a == b
  {
    assert a == (a + s)[..|a|];
    assert b == (b + s)[..|b|];
  }

  /** A text that ends with a quote and an unquoted label determines both the label and what comes before. */
  lemma QuotedLabelUnique(x1: string, l1: string, x2: string, l2: string)
    requires Unquoted(l1) && Unquoted(l2)
    requires x1 + "'" + l1 == x2 + "'" + l2
    ensures x1 == x2 && l1 == l2
  {
    var s := x1 + "'" + l1;
    assert s == x2 + "'" + l2;
    if |l1| < |l2| {
      QuoteInLonger(x1, l1, x2, l2);
      assert false;
    } else if |l2| < |l1| {
      QuoteInLonger(x2, l2, x1, l1);
      assert false;
    }
    assert l1 == s[|s| - |l1|..];
    assert l2 == s[|s| - |l2|..];
    DropSuffix(x1 + "'", x2 + "'", l1);
    DropSuffix(x1, x2, "'");
  }

  /** When the label after the last quote of one reading is the shorter one, the longer label holds that quote. */
  lemma QuoteInLonger(x1: string, l1: string, x2: string, l2: string)
    requires x1 + "'" + l1 == x2 + "'" + l2 && |l1| < |l2|
    ensures l2[|l2| - |l1| - 1] == '\''
  {
    var s := x1 + "'" + l1;
    assert s[|x1|] == '\'';
    assert s[|x1|] == (x2 + "'" + l2)[|x1|];
  }

  /**
    A prompt laid out as `lead`, the topic, `mid`, a quote, the level label
    and `tail` gives back the topic and the label it was built from.
   */
  lemma PromptUnique(lead: string, mid: string, tail: string, t1: string, l1: string, t2: string, l2: string)
    requires Unquoted(l1) && Unquoted(l2)
    requires lead + t1 + mid + "'" + l1 + tail == lead + t2 + mid + "'" + l2 + tail
    ensures t1 == t2 && l1 == l2
  {
    DropSuffix(lead + t1 + mid + "'" + l1, lead + t2 + mid + "'" + l2, tail);
    QuotedLabelUnique(lead + t1 + mid, l1, lead + t2 + mid, l2);
    DropSuffix(lead + t1, lead + t2, mid);
    DropPrefix(lead, t1, t2);
  }

  /**
    A prompt built from any fixed text around the topic and the quoted label
    of a known level gives back the topic as printed and the level asked for.
   */
  lemma LevelPromptUnique(lead: string, mid: string, tail: string,
                          t1: Option<string>, n1: Option<string>, t2: Option<string>, n2: Option<string>)
    requires n1.Some? && n1.value in Levels && n2.Some? && n2.value in Levels
    requires lead + Shown(t1) + mid + "'" + Levels[n1.value] + tail == lead + Shown(t2) + mid + "'" + Levels[n2.value] + tail
    ensures Shown(t1) == Shown(t2) && n1 == n2
  {
    LabelsUnquoted();
    LabelsDistinct();
    PromptUnique(lead, mid, tail, Shown(t1), Levels[n1.value], Shown(t2), Levels[n2.value]);
  }
}
