# MIA course-catalogue assistant, modelled in Dafny

This project models the retrieval-augmented question answering behind the
course catalogue of the Magíster en Inteligencia Artificial (MIA). It covers
three parts:

- **Corpus building** (`generate_mia_embeddings.py`). Every course record
  of the catalogue is flattened by `process_course_to_text` into one text
  made of labelled segments in a fixed order: course, code, discipline,
  credits, description, learning outcomes, contents, methodologies,
  evaluation and bibliography. Records whose stripped text has 50 characters
  or fewer are dropped. The rest are embedded in batches of 100, and a batch
  whose call fails gets 1536-dimensional zero vectors. `create_embeddings_csv`
  assembles the text, embedding and course-code columns into a table.
- **Answering** (`plataforma/views.py`). `strings_ranked_by_relatedness`
  scores every corpus text against the query embedding and sorts the texts
  by score, highest first. `query_message` packs the ranked texts as articles
  under a token budget. `ask` sends the packed message and a system message
  to the chat service. `format_response` splits the reply into paragraphs
  and formats them.
- **The earlier views** (`plataforma/views_old.py`). They run the same
  ranking and packing under another introduction and article heading. Their
  `ask` greets the user twice and returns the reply unformatted. They also
  hold an earlier strategies prompt.

Every Python exception the source can raise on its inputs is modelled as an
error value (`Wrappers.Result`), raised in the order the source evaluates
its expressions. Examples are `AttributeError` from `.get` on a
non-mapping, `TypeError` from `' '.join` over non-strings or from iterating
a non-iterable, `KeyError` from `levels[nivel]`, and `ValueError` from
unpacking `zip(*[])` over an empty corpus.

Modules:

| file | module | models |
|---|---|---|
| `wrappers.dfy` | `Wrappers` | `Option`, `Result` and the Python exception kinds |
| `sequences.dfy` | `Sequences` | regrouping of concatenations, shared by the other modules |
| `pystr.dfy` | `PyStr` | `str.strip`, `in`, `find`, `join`, `split`, `split(sep, 1)`, `endswith`, `lower` |
| `course_text.dfy` | `CourseText` | JSON values, Python truthiness, `process_course_to_text` |
| `course_text_facts.dfy` | `CourseTextFacts` | what the flattened text holds, segment by segment |
| `corpus.dfy` | `Corpus` | `create_embeddings_csv`: selection, batching, table |
| `ranking.dfy` | `Ranking` | `strings_ranked_by_relatedness`, with the in-place stable sort |
| `context.dfy` | `Context` | `query_message` and its token-budget loop, shared by both views files |
| `formatter.dfy` | `Formatter` | `format_response` |
| `prompts.dfy` | `Prompts` | the levels table and `levels[nivel]` |
| `views.dfy` | `Views` | `ask`, `generate_strategies_prompt`, `generate_about_topic_prompt` |
| `views_old.dfy` | `ViewsOld` | the old `ask` and the old `generate_strategies_prompt` |

Services and other outside inputs become parameters:

- the embedding service is `embed` or `embedQuery`, which returns `None`
  when the call raised;
- the chat service is `chat(system, user)`;
- the relatedness function is `relatedness`;
- the token counter is `numTokens`;
- the course records come as a list of (code, record) pairs in catalogue
  order.

Loops that update variables in the source are methods with loop invariants.
Each method is proved equal to a specification function, and the
properties are proved about those functions:

- the flattener's appends to `parts`;
- the selection and batch loops;
- the packing loop with its `break`;
- the sentence and paragraph loops of `format_response`;
- the in-place sort of the scored list. `SortByRelatedness` is an insertion
  sort on an `array`, standing in for `list.sort`.

Three behaviours of the code worth stating outright:

- **When a paragraph closes.** The comment in `format_response`
  (plataforma/views.py:126) speaks of a new paragraph every two or three
  sentences. The test `len(current_paragraph.split('. ')) >= 3` in fact
  already holds after two sentences that end with full stops, so a second
  non-final sentence always closes its paragraph
  (`Formatter.SecondSentenceCloses`).
- **Title and description.** A paragraph with exactly one colon becomes a
  bold title over a description (plataforma/views.py:144-147), even when
  either half is empty (`Formatter.FormatParagraphCases`).
- **Absent and malformed fields.** In `process_course_to_text` an absent
  field only omits its segment. A field of the wrong shape raises, for
  example `metadata` holding a string (AttributeError), or a `contenidos`
  mapping whose `titulo` values are not strings (TypeError from
  `' '.join`). The model returns that error.

## Model

| member | source | states |
|---|---|---|
| `CourseText.ProcessCourseToText` | generate_mia_embeddings.py:47-132 | The text is the rendered segments joined by single spaces, or the first exception the record raises |
| `CourseText.AppendIfTruthy` | generate_mia_embeddings.py:54-55 | `label: str(v)` is appended exactly when `v` is truthy, and nothing otherwise |
| `CourseText.AppendMetadata` | generate_mia_embeddings.py:51-65 | The parts after the four metadata fields and the description are the rendering of those five optional segments, in order |
| `CourseText.AppendResultados` | generate_mia_embeddings.py:68-70 | Extends the parts with the learning-outcomes segment, or fails with the error of iterating or joining the field |
| `CourseText.AppendContenidos` | generate_mia_embeddings.py:73-93 | Extends the parts with the contents segment, present only for a truthy mapping with some title, or fails with the join's error |
| `CourseText.CollectContentTitles` | generate_mia_embeddings.py:78-90 | The titles collected from a contents mapping are, entry by entry, each entry's titles |
| `CourseText.CollectEntryTitles` | generate_mia_embeddings.py:80-90 | One entry adds its `titulo` and its subsection titles when it is a titled mapping, adds itself when it is a string, and adds nothing otherwise |
| `CourseText.CollectSubTitles` | generate_mia_embeddings.py:84-87 | Each subsection that is a mapping with `titulo` contributes that title, in mapping order |
| `CourseText.AppendMetodologias` | generate_mia_embeddings.py:96-98 | Extends the parts with the methodologies of a truthy list, ignores any other value, and fails when an item is not a string |
| `CourseText.AppendEvaluacion` | generate_mia_embeddings.py:101-116 | Extends the parts with the evaluation items, with `%` under `items` and without it for a flat mapping, or fails when `items` is not a mapping |
| `CourseText.CollectEvalItems` | generate_mia_embeddings.py:105-114 | The items are `item weight`, with `%` or without it, for each entry in order |
| `CourseText.CollectBibliography` | generate_mia_embeddings.py:119-127 | The references are those of `minima`, then those of `complementaria`, from `bibliography` or else `bibliografia`; a non-mapping or a non-iterable category raises |
| `CourseText.CollectBibTexts` | generate_mia_embeddings.py:122-124 | Appends the truthy `raw_text` of each entry that is a mapping, in order |
| `CourseText.AppendBibliografia` | generate_mia_embeddings.py:119-130 | Extends the parts with the first five collected references, or with nothing when there are none |
| `CourseText.AppendSections` | generate_mia_embeddings.py:67-130 | Running the five later sections gives the rendering of the whole run of steps, stopping at the first that raises |
| `CourseText.JoinStrs` | generate_mia_embeddings.py:69 | `' '.join` succeeds exactly when every item is a string |
| `CourseText.Iterate` | generate_mia_embeddings.py:122 | Iteration succeeds exactly on lists, mappings and strings |
| `CourseText.Take` | generate_mia_embeddings.py:130 | `xs[:5]` is a prefix of exactly five items when the list is longer, and the whole list otherwise |
| `CourseTextFacts.SegmentsSucceed` | generate_mia_embeddings.py:47-132 | A record flattens exactly when it is a mapping, its metadata is a mapping (or absent) and no section raises |
| `CourseTextFacts.SegmentsFirstError` | generate_mia_embeddings.py:47-132 | The first section that raises decides the error of the record |
| `CourseTextFacts.SegmentsInOrder` | generate_mia_embeddings.py:53-130 | The segments follow the fixed label order, each label at most once, at most ten in all |
| `CourseTextFacts.MetadataSection` | generate_mia_embeddings.py:51-61 | Each metadata label holds `str()` of its field when that field is truthy, and is absent otherwise |
| `CourseTextFacts.DescripcionSection` | generate_mia_embeddings.py:64-65 | The description segment holds `str()` of a truthy `descripcion`, and is absent otherwise |
| `CourseTextFacts.ResultadosSection` | generate_mia_embeddings.py:68-70 | The outcomes segment joins the strings a truthy field iterates over, and is absent for a falsy field |
| `CourseTextFacts.ContenidosSection` | generate_mia_embeddings.py:73-93 | The contents segment joins the collected titles, and is present only for a truthy mapping with some title |
| `CourseTextFacts.MetodologiasSection` | generate_mia_embeddings.py:96-98 | The methodologies segment joins the items of a non-empty list, and any other value yields none |
| `CourseTextFacts.EvaluacionSection` | generate_mia_embeddings.py:101-116 | The evaluation segment joins the items of a truthy mapping, and is absent when there are none |
| `CourseTextFacts.BibliografiaSection` | generate_mia_embeddings.py:119-130 | The bibliography segment joins the first five collected references, and is absent when there are none |
| `CourseTextFacts.CourseTextHasSegments` | generate_mia_embeddings.py:132 | Every segment's rendering occurs in the flattened text |
| `CourseTextFacts.EmptyRecordIsEmpty` | generate_mia_embeddings.py:47-132 | A record with no fields flattens to the empty text without raising |
| `CourseTextFacts.ContentTitlesConcat` | generate_mia_embeddings.py:79-90 | The titles of a contents mapping are those of its parts, in order |
| `CourseTextFacts.EvalItemsEach` | generate_mia_embeddings.py:105-114 | There is one evaluation item per entry, each rendered from its own entry, in mapping order |
| `CourseTextFacts.BibTextsFromEntries` | generate_mia_embeddings.py:122-127 | Every collected reference is the truthy `raw_text` of some mapping among the entries |
| `CourseTextFacts.BibTextsAllReferences` | generate_mia_embeddings.py:122-127 | When all entries are mappings with a truthy `raw_text`, each contributes exactly that, in order |
| `Corpus.SelectCourses` | generate_mia_embeddings.py:141-148 | The selection loop builds the parallel text and code columns of its specification, or stops at the first record that raises |
| `Corpus.SelectedCourses` | generate_mia_embeddings.py:144-148 | Selection fails exactly when some record fails; otherwise the columns are parallel, every text is longer than 50 once stripped, and a (text, code) pair is selected exactly when some course with that code flattens to that long enough text |
| `Corpus.SelectFails` | generate_mia_embeddings.py:144-145 | The loop fails exactly when some record fails, and with the error of the first one that does |
| `Corpus.SelectRows` | generate_mia_embeddings.py:144-148 | A row is selected exactly when some record yields it and it passes the length test |
| `Corpus.KeptIndicesExact` | generate_mia_embeddings.py:144-146 | The kept positions strictly increase and are exactly the positions of the records whose text passes the test |
| `Corpus.SelectInOrder` | generate_mia_embeddings.py:144-148 | Row i of the selection is the record at the i-th kept position, so the rows follow the catalogue order |
| `Corpus.SelectedInOrder` | generate_mia_embeddings.py:144-148 | The selected rows are the kept courses in catalogue order, each exactly once: row i comes from the course at the i-th kept position, and every course whose text is kept has a position |
| `Corpus.EmbedTexts` | generate_mia_embeddings.py:154-173 | The batch loop builds the embeddings of its specification: each batch's vectors, or zero vectors for a failed call |
| `Corpus.BatchesCover` | generate_mia_embeddings.py:156-158 | The batches cover the texts in order; there are ceil(n/100) of them, all of 100 texts except a shorter, non-empty last one |
| `Corpus.EmbeddedByBatch` | generate_mia_embeddings.py:157-173 | The embeddings are those of the batches, one batch after another |
| `Corpus.EmbeddedLength` | generate_mia_embeddings.py:154-173 | With a service that answers one vector per text, there is one embedding per text |
| `Corpus.AllBatchesFail` | generate_mia_embeddings.py:170-173 | When every call raises, each text gets the 1536-dimensional zero vector |
| `Corpus.ZeroVector` | generate_mia_embeddings.py:173 | The zero vector has 1536 components, all 0.0 |
| `Corpus.Table` | generate_mia_embeddings.py:176-180 | The table is built exactly when the three columns have equal length, with row i made of the i-th entries; otherwise ValueError |
| `Corpus.CreateEmbeddingsTable` | generate_mia_embeddings.py:135-180 | Builds the table of its specification: selection, then embedding, then the table |
| `Corpus.TableRows` | generate_mia_embeddings.py:141-180 | With a well-behaved service, the table exists exactly when every record flattens, and has one row per selected course with its text and code |
| `Ranking.SortByRelatedness` | plataforma/views.py:69 | The array is left holding the stable descending sort of its old contents |
| `Ranking.InsertLast` | plataforma/views.py:69 | One insertion pass moves the i-th entry left past the lower-scored entries before it, and leaves the rest of the array unchanged |
| `Ranking.SortDescSorted` | plataforma/views.py:69 | The sorted list is ordered by score, highest first |
| `Ranking.SortDescPermutes` | plataforma/views.py:69 | The sorted list is a permutation of the scored list |
| `Ranking.SortDescStable` | plataforma/views.py:69 | Entries with equal scores keep their corpus order |
| `Ranking.Score` | plataforma/views.py:65-68 | Each row's text is paired with its relatedness to the query embedding, in corpus order |
| `Ranking.SliceTo` | plataforma/views.py:71 | `xs[:n]` is a prefix of length min(n, len) for n >= 0, and drops -n items from the end for n < 0 |
| `Ranking.StringsRankedByRelatedness` | plataforma/views.py:53-71 | Returns the ranked columns of its specification, or the service error, or ValueError for an empty corpus |
| `Ranking.RankedColumns` | plataforma/views.py:65-71 | Success means the query embedded and the corpus is not empty; the columns are parallel, min(rows, top_n) long, ordered by score, and are the head of the sorted scored list |
| `Ranking.RankedFromRows` | plataforma/views.py:65-69 | The ranking holds the scored rows with their multiplicities, and rows with equal scores in corpus order |
| `Ranking.EmptyCorpusFails` | plataforma/views.py:70 | Unpacking over an empty corpus raises ValueError |
| `Context.PackArticles` | plataforma/views.py:85-95 | The loop leaves the message of its specification, followed by the question |
| `Context.PackShape` | plataforma/views.py:85-95 | The packed message is the introduction followed by the articles of the first k texts in ranking order; each of them fitted the budget when appended, and the next one did not |
| `Context.PackPrefix` | plataforma/views.py:86-94 | The packed message is the introduction followed by the articles of a prefix of the texts |
| `Context.PackFits` | plataforma/views.py:88-94 | Every article appended kept the message, with the question, within the budget |
| `Context.PackStops` | plataforma/views.py:88-92 | The first text left out is left out because its article would exceed the budget |
| `Context.BuildQueryMessage` | plataforma/views.py:74-95 | Returns the message of its specification, or the ranking's error |
| `Context.QueryMessageShape` | plataforma/views.py:81-95 | A built message is the introduction, the articles of a prefix of at most 100 ranked texts, and the question; it is within budget when it carries an article, and the next text would have exceeded it |
| `Context.QueryMessageFails` | plataforma/views.py:81 | Building the message fails exactly when the query cannot be embedded (service error) or the corpus is empty (ValueError) |
| `Formatter.FormatResponse` | plataforma/views.py:98-154 | Returns the formatted text of its specification |
| `Formatter.GroupSentences` | plataforma/views.py:113-135 | The sentence loop and the final append give the paragraphs of its specification |
| `Formatter.FormatParagraphs` | plataforma/views.py:138-149 | Each paragraph is formatted on its own, in order |
| `Formatter.Formatted` | plataforma/views.py:103-104 | An empty reply comes back unchanged |
| `Formatter.FormattedEmpty` | plataforma/views.py:103-154 | The formatted text is empty exactly when the reply is empty or all whitespace |
| `Formatter.GroupKeepsText` | plataforma/views.py:113-135 | Paragraphs are stripped and non-empty, there are no more of them than non-blank sentences, and read a space apart they spell out the sentences in order |
| `Formatter.GroupNotEmpty` | plataforma/views.py:133-135 | A non-blank last sentence leaves at least one paragraph |
| `Formatter.FirstSentenceCloses` | plataforma/views.py:124-131 | A non-final sentence opening a paragraph closes it exactly when it carries a cue word |
| `Formatter.SecondSentenceCloses` | plataforma/views.py:124-131 | A second non-final sentence always closes a paragraph that holds one earlier sentence, whatever blank pieces came between |
| `Formatter.FormatParagraphCases` | plataforma/views.py:139-149 | List paragraphs stay as they are; otherwise one with exactly one colon becomes a bold stripped title, a line break and the stripped description; any other stays as it is |
| `Formatter.SplitCount` | plataforma/views.py:144 | Splitting at a character gives one piece more than its number of occurrences |
| `PyStr.StripSlice` | plataforma/views.py:107 | `strip` returns a slice of its argument without whitespace at either end, and is empty exactly for all-whitespace text |
| `PyStr.SplitJoin` | plataforma/views.py:113 | Joining the pieces with the separator gives back the text, and no piece holds the separator |
| `PyStr.SplitOnce` | plataforma/views.py:146 | `split(sep, 1)` gives the text before the first separator and the text after it |
| `PyStr.Lower` | plataforma/views.py:128 | `lower` keeps the length and maps each character on its own |
| `Prompts.Level` | plataforma/views.py:274-282 | `levels[nivel]` is the label of a known level, and raises KeyError for a missing or unknown one |
| `Prompts.LabelsDistinct` | plataforma/views.py:274-280 | Different levels have different labels |
| `Prompts.LabelsUnquoted` | plataforma/views.py:274-282 | No label holds the quote that the prompts put around it |
| `Prompts.LevelPromptUnique` | plataforma/views.py:273-284 | Any prompt that places the topic and the quoted label of a known level between fixed texts determines the topic as printed and the level |
| `Views.SystemMessageShape` | plataforma/views.py:171-181 | The system message opens with the instructions; it is just them without a profile, and they are followed by one greeting naming the user otherwise |
| `Views.SystemMessageNames` | plataforma/views.py:180-181 | Different profile names give different system messages |
| `Views.Ask` | plataforma/views.py:157-199 | Returns the answer of its specification: message, system message, chat call, then formatting |
| `Views.AnswerFails` | plataforma/views.py:166-194 | `ask` fails exactly when the query cannot be embedded, the corpus is empty or the chat call raises, with the error of the first |
| `Views.AnswerIsFormattedReply` | plataforma/views.py:166-199 | An answer is the formatted chat reply to the packed message, and is empty exactly when the reply is blank |
| `Views.PromptsLevel` | plataforma/views.py:273-304 | Both prompts are built exactly for known levels and quote the level's label, and raise KeyError otherwise |
| `Views.StrategiesPromptUnique` | plataforma/views.py:273-284 | The strategies prompt determines the topic as printed and the level |
| `Views.AboutTopicPromptUnique` | plataforma/views.py:287-304 | The topic prompt determines the topic as printed and the level |
| `ViewsOld.Ask` | plataforma/views_old.py:85-111 | Returns the answer of its specification: message, then the profile dereference, then the raw chat reply |
| `ViewsOld.SystemMessageTwice` | plataforma/views_old.py:98-100 | With a profile, the old system message is the greeting sentence twice |
| `ViewsOld.AnswerNeedsProfile` | plataforma/views_old.py:94-100 | Without a profile the old `ask` never answers: the ranking's error if it fails, AttributeError otherwise |
| `ViewsOld.AnswerIsRawReply` | plataforma/views_old.py:94-111 | An old answer is the chat reply itself to the doubled greeting and the packed message under the old introduction |
| `ViewsOld.StrategiesPromptLevel` | plataforma/views_old.py:162-171 | The old prompt is built exactly for known levels and quotes the label, and raises KeyError otherwise |
| `ViewsOld.StrategiesPromptUnique` | plataforma/views_old.py:162-171 | The old prompt determines the topic as printed and the level |

## Left out

- Loading the catalogue from JSON files, writing the CSV, and reading it back with `ast.literal_eval` are not modelled. They are file I/O. Records arrive as a list of (code, record) pairs, and the table is returned as rows.
- Progress and error messages (`print`) and `print_message` are not modelled. They are output only.
- Django request handling is not modelled: `index`, `capital_semilla_chat`, `semilla`, sessions and rendering. It is web plumbing around the modelled functions.
- The embedding and chat services, `num_tokens` and the relatedness function are parameters. Model names, temperature and the shape of the service responses are not modelled. They are foreign calls.
- Relatedness scores are exact `real` numbers. Floating point rounding and NaN, which would break the sort's ordering, are not modelled. Cosine distance is not modelled either, because `relatedness` is a parameter.
- `Ranking.SortByRelatedness` is an insertion sort. It stands in for Python's `list.sort` (Timsort) and has the same result: stable, highest score first.
- `CourseText.Repr` simplifies `str()` and `repr()` of containers and numbers. Strings always get single quotes, there are no escapes, and numbers carry the text Python prints for them.
- `PyStr.IsDigit` covers the ASCII digits only. Python's `\d` matches every Unicode decimal digit. `PyStr.IsSpace` is Python's full whitespace set.
- `PyStr.LowerChar` lowercases ASCII and Latin-1 letters only. That is enough for the cue words, which are Spanish.
- The old `generate_about_topic_prompt` in `plataforma/views_old.py` is not modelled. It is an older wording of the modelled `generate_about_topic_prompt`.
- `Formatter.GroupKeepsText` is proved for any `strip` and closing rule with the properties of `Formatter.Stripping`. It is applied to the code's `strip` and rule through `Formatter.StripStripping`.
- `Formatter.SecondSentenceCloses` covers sentences without an inner ". ". The sentences of the code's split never have one.
- The response of the chat service is a string. A `None` content is not modelled.
- A mapping whose key repeats, and a catalogue whose course code repeats, are outside the model. `json.load` keeps the last of repeated keys, while `CourseText.Get` takes the first. The two agree on mappings without repeated keys, which are the only ones a Python `dict` can hold.
