/**
  plataforma/views_old.py, the earlier version of the views: the same ranking
  and packing under another introduction and article heading, an `ask` that
  greets the user twice and returns the chat reply as it comes, and an
  earlier wording of `generate_strategies_prompt`.
 */
module ViewsOld {
  import opened Wrappers
  import Ranking
  import Context
  import Prompts
  import Views

  /** The introduction of the old `query_message`. */
  const Introduction: string :=
    "Usa los siguientes artículos sobre la base de datos para responder la siguiente pregunta. Si la respuesta no se encuentra en los artículos, escribe \"No pude encontrar una respuesta.\""

  /** The heading of every article in the old message. */
  const Heading: string := "Sección del Manual"

  /** The default `token_budget` of the old `ask`. */
  const TokenBudget: int := 4096 - 500

  /** The packed message for `query`, under the old introduction and heading. */
  function QueryMessage(query: string, rows: seq<(string, Ranking.Vector)>, embedQuery: string -> Option<Ranking.Vector>,
                        relatedness: (Ranking.Vector, Ranking.Vector) -> real, numTokens: string -> nat, budget: int): Result<string>
  {
    Context.QueryMessage(Introduction, Heading, query, rows, embedQuery, relatedness, numTokens, budget)
  }

  /** The old system message for a profile named `name`: the greeting, then the same greeting appended once more. */
  function SystemMessage(name: string): string {
    "Saluda a " + name + " por su nombre." + Views.Greeting(name)
  }

  /**
    What the old `ask(query, profile=profile)` returns: the chat reply as it
    comes, unformatted. The greeting dereferences `profile.name` before the
    `None` test, so without a profile it raises `AttributeError`, after the
    message has been built.
   */
  function Answer(query: string, rows: seq<(string, Ranking.Vector)>, profileName: Option<string>,
                  embedQuery: string -> Option<Ranking.Vector>, relatedness: (Ranking.Vector, Ranking.Vector) -> real,
                  numTokens: string -> nat, chat: (string, string) -> Option<string>): Result<string>
  {
    var message :- QueryMessage(query, rows, embedQuery, relatedness, numTokens, TokenBudget);
    match profileName
    case None => Err(AttributeError)
    case Some(name) =>
      match chat(SystemMessage(name), message)
      case None => Err(ServiceError)
      case Some(reply) => Ok(reply)
  }

  /** The old `ask`, step by step. */
  method Ask(query: string, rows: seq<(string, Ranking.Vector)>, profileName: Option<string>,
             embedQuery: string -> Option<Ranking.Vector>, relatedness: (Ranking.Vector, Ranking.Vector) -> real,
             numTokens: string -> nat, chat: (string, string) -> Option<string>) returns (r: Result<string>)
    ensures r == Answer(query, rows, profileName, embedQuery, relatedness, numTokens, chat)
  {
    var message := Context.BuildQueryMessage(Introduction, Heading, query, rows, embedQuery, relatedness, numTokens, TokenBudget);
    assert QueryMessage(query, rows, embedQuery, relatedness, numTokens, TokenBudget) == message;
    if message.Err? {
      return Err(message.error);
    }
    if profileName.None? {
      return Err(AttributeError);
    }
    var name := profileName.value;
    var systemMessage := "Saluda a " + name + " por su nombre.";
    systemMessage := systemMessage + Views.Greeting(name);
    assert systemMessage == SystemMessage(name);
    var response := chat(systemMessage, message.value);
    if response.None? {
      return Err(ServiceError);
    }
    return Ok(response.value);
  }

  /** The old system message is one greeting sentence, a space, and the same sentence again. */
  lemma SystemMessageTwice(name: string)
    ensures var once := "Saluda a " + name + " por su nombre.";
      SystemMessage(name) == once + " " + once && Views.Greeting(name) == " " + once
  {
  }

  /**
    Without a profile the old `ask` never answers: it raises the error of the
    message when the ranking fails, and `AttributeError` otherwise.
   */
  lemma AnswerNeedsProfile(query: string, rows: seq<(string, Ranking.Vector)>,
                           embedQuery: string -> Option<Ranking.Vector>, relatedness: (Ranking.Vector, Ranking.Vector) -> real,
                           numTokens: string -> nat, chat: (string, string) -> Option<string>)
    ensures var r := Answer(query, rows, None, embedQuery, relatedness, numTokens, chat);
      r.Err? &&
      (embedQuery(query).None? ==> r.error == ServiceError) &&
      (embedQuery(query).Some? && rows == [] ==> r.error == ValueError) &&
      (embedQuery(query).Some? && rows != [] ==> r.error == AttributeError)
  {
    Context.QueryMessageFails(Introduction, Heading, query, rows, embedQuery, relatedness, numTokens, TokenBudget);
  }

  /**
    An old answer is the chat reply itself, to the doubled greeting and the
    packed message; that message opens with the old introduction, carries
    articles for a prefix of the ranked texts and closes with the question.
   */
  lemma AnswerIsRawReply(query: string, rows: seq<(string, Ranking.Vector)>, profileName: Option<string>,
                         embedQuery: string -> Option<Ranking.Vector>, relatedness: (Ranking.Vector, Ranking.Vector) -> real,
                         numTokens: string -> nat, chat: (string, string) -> Option<string>)
    requires Answer(query, rows, profileName, embedQuery, relatedness, numTokens, chat).Ok?
    ensures var m := QueryMessage(query, rows, embedQuery, relatedness, numTokens, TokenBudget);
      var strings := Ranking.Ranked(query, rows, embedQuery, relatedness, Context.TopN).value.0;
      var k := Context.Taken(Introduction, Heading, strings, Context.Question(query), numTokens, TokenBudget);
      profileName.Some? && m.Ok? &&
      m.value == Introduction + Context.FirstArticles(Heading, strings, k) + Context.Question(query) &&
      chat(SystemMessage(profileName.value), m.value) == Some(Answer(query, rows, profileName, embedQuery, relatedness, numTokens, chat).value)
  {
    Context.QueryMessageShape(Introduction, Heading, query, rows, embedQuery, relatedness, numTokens, TokenBudget);
  }

  // ---------------------------------------------------------------------
  // The old strategies prompt

  const StrategiesLead: string := "En no más de 400 palabras, estas son algunas estrategias para aprender sobre "
  const StrategiesMid: string := ". Para alguien con el nivel de autoeficiencia "
  const StrategiesTail: string := "', resaltando aspectos claves. "

  /** The old `generate_strategies_prompt(tematica, nivel)` */
  function StrategiesPrompt(tematica: Option<string>, nivel: Option<string>): Result<string> {
    var level :- Prompts.Level(nivel);
    Ok(StrategiesLead + Prompts.Shown(tematica) + StrategiesMid + "'" + level + StrategiesTail)
  }

  /** The old prompt is built exactly for the keys of the levels table and quotes the key's label; any other `nivel` raises `KeyError`. */
  lemma StrategiesPromptLevel(tematica: Option<string>, nivel: Option<string>)
    ensures StrategiesPrompt(tematica, nivel).Ok? <==> nivel.Some? && nivel.value in Prompts.Levels
    ensures StrategiesPrompt(tematica, nivel).Err? ==> StrategiesPrompt(tematica, nivel).error == KeyError
    ensures StrategiesPrompt(tematica, nivel).Ok? ==>
      StrategiesPrompt(tematica, nivel).value ==
        StrategiesLead + Prompts.Shown(tematica) + StrategiesMid + "'" + Prompts.Levels[nivel.value] + StrategiesTail
  {
  }

  /** The old prompt gives back the topic as printed and the level it was asked for. */
  lemma StrategiesPromptUnique(t1: Option<string>, n1: Option<string>, t2: Option<string>, n2: Option<string>)
    requires StrategiesPrompt(t1, n1).Ok? && StrategiesPrompt(t1, n1) == StrategiesPrompt(t2, n2)
    ensures Prompts.Shown(t1) == Prompts.Shown(t2) && n1 == n2
  {
    StrategiesPromptLevel(t1, n1);
    StrategiesPromptLevel(t2, n2);
    Prompts.LevelPromptUnique(StrategiesLead, StrategiesMid, StrategiesTail, t1, n1, t2, n2);
  }
}
