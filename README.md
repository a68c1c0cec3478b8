# Local QA bot: verified model of its bookkeeping

The local QA bot answers questions about a folder of text files. It has two scripts.
`ingest.py` gathers the files, reads them, and cuts each one into chunks with a text splitter.
It puts the chunks into a vector index, with one `{"source": path}` metadata entry per chunk.
`main.py` is a chat page. It sends a question to a retrieval chain, falls back to a plain
completion when the chain answers "I don't know", and keeps the questions and answers in two
session lists, which it shows newest first.

Embedding, the vector index, the language models and the web page all come from libraries.
What the scripts themselves do is list and string bookkeeping, and that is what this model covers:

- `wrappers.dfy` (`Wrappers`): `Option` and `Result`.
- `seqs.dfy` (`Seqs`): a list built by repeated `extend`, described as the concatenation of its
  blocks. `Offset` gives where a block starts, and `Owner` gives which block a position came from.
- `ingest.dfy` (`Ingest`): `read_files`, the loading loop and the chunk/metadata loop, written as
  methods with loops. The glob, the file reader and the splitter are function parameters.
  The splitter is called with the script's constants: chunk size 1500, separator `"\n"`.
  A file that cannot be read stops the run at that file (the Python script raises there).
- `text.dfy` (`Text`): `lower()` on ASCII letters, Python's `str.strip()` with Python's
  whitespace set, `str(n)` for non-negative integers, and finding a character.
- `answer.dfy` (`Answer`): the refusal test, the fallback prompt and answer, the choice of answer and
  sources, and the output string. The chain and the completion service are function parameters.
- `transcript.dfy` (`Transcript`): the session lists `past` and `generated` as class `Session`.
  `Ask` appends to both lists in lockstep. `Render` is the countdown display loop. A bubble's
  widget key is kept as `BotKey(i)` or `UserKey(i)`; `KeyText` gives the string the page receives.

After a fallback, sources is the literal `"OpenAI API"` (main.py:111). The two refusal phrases
are literals in main.py:109.

## Model

| member | source | states |
|---|---|---|
| `Ingest.ReadFiles` | ingest.py:35-39 | the file list is the glob matches for `**/*<ext>`, one extension after another in configuration order |
| `Ingest.ExtensionOrder` | ingest.py:36-38 | the t-th match of extension k sits at Offset(k)+t, and every match of an earlier extension comes before every match of a later one |
| `Ingest.LoadDocuments` | ingest.py:53-58 | succeeds iff every path can be read; then `sources == ps`, the two lists have the same length, and `data[i]` is the text of `ps[i]`; otherwise it stops at the first unreadable path |
| `Ingest.SplitDocuments` | ingest.py:62-67 | `docs` is the splits of every document in document order; `metadatas` is one `{"source": sources[i]}` per split of document i; the lengths are equal and are the total split count; chunk j's metadata names the source of the document that owns position j |
| `Ingest.ChunkAttribution` | ingest.py:64-67 | position j of the chunk list and of the metadata list both come from document Owner(j): the chunk is element j - Offset(i) of that document's splits and the metadata names its source |
| `Ingest.DocumentContribution` | ingest.py:65-67 | document i fills positions Offset(i) up to Offset(i+1) in both lists, with exactly its splits and as many copies of its source; a document with no splits owns no position |
| `Ingest.ChunkOrder` | ingest.py:64-66 | a later chunk never comes from an earlier document |
| `Ingest.SingleDocument` | ingest.py:61-67 | one document that splits into one chunk gives that one chunk, with its path as the only metadata entry |
| `Ingest.IngestCorpus` | ingest.py:50-67 | the whole script up to embedding: fails exactly when some gathered path is unreadable, naming the first such path; otherwise returns the flattened chunks and metadata of the gathered files' texts |
| `Seqs.Owner` | ingest.py:64-67 | every position of a flattened list lies inside the block it is attributed to |
| `Seqs.OwnerUnique` | ingest.py:64-67 | a position inside block i is attributed to block i and to no other |
| `Text.AsciiLower` | main.py:109 | same length as the input; no ASCII capital is left; each ASCII capital becomes the character 32 places later (its small letter) and every other character is kept |
| `Text.Strip` | main.py:68 | the result starts right after the leading whitespace, everything after it is whitespace, and it neither starts nor ends with whitespace |
| `Text.StripIdempotent` | main.py:68 | stripping a stripped string changes nothing |
| `Text.NatToString` | main.py:124 | `str(i)` is a non-empty string of decimal digits that starts with `0` only for i = 0, so it has no leading zeros |
| `Text.DecimalRoundTrip` | main.py:124 | reading the digits of `str(i)` back gives i |
| `Answer.IsRefusal` | main.py:109 | the fallback fires iff the answer spells "i don't know" or "i do not know" character for character, each letter in either case, with nothing around it |
| `Answer.RefusalShape` | main.py:109 | a refusal is 12 or 13 characters, begins with i/I and ends with w/W, so surrounding whitespace or a full stop defeats it |
| `Answer.RefusalExamples` | main.py:109 | "I don't know", "I DO NOT KNOW" and "i do not know" trigger the fallback |
| `Answer.NonRefusalExamples` | main.py:109 | "I don't know.", " I don't know", "I don't know " and "I dont know" do not |
| `Answer.FallbackPrompt` | main.py:60 | the prompt is the question followed by exactly `"\n\nAnswer:"` |
| `Answer.FallbackPromptInjective` | main.py:60 | different questions give different prompts |
| `Answer.FallbackAnswer` | main.py:57-68 | the fallback answer neither starts nor ends with whitespace |
| `Answer.Decide` | main.py:104-111 | a reply whose sources are not "OpenAI API" is exactly the chain's answer and sources; a refusal is shown only with sources "OpenAI API" and only when the chain refused; `GroundedReply`, `FallbackReply` and `NoRefusalSurvives` give each branch exactly |
| `Answer.GroundedReply` | main.py:104-109 | without a refusal the chain's answer and sources are kept unchanged, and the completion service has no influence |
| `Answer.FallbackReply` | main.py:109-111 | after a refusal the reply is the stripped completion of the question's prompt with sources "OpenAI API", whatever else the chain returned |
| `Answer.NoRefusalSurvives` | main.py:105-111 | a refusal is shown only if the chain refused and the stripped fallback completion is itself a refusal; its sources are then "OpenAI API" |
| `Answer.FormatOutput` | main.py:113 | the output is `"Answer: "`, the answer, `"\nSources: "` and the sources, each at its own position; `OutputRoundTrip` and `OutputParseSound` relate it to the parser |
| `Answer.OutputRoundTrip` | main.py:113 | for a single-line answer, the output `"Answer: " + answer + "\nSources: " + sources` parses back to the same answer and sources |
| `Answer.OutputParseSound` | main.py:113 | whatever the parser accepts is exactly the output of the reply it returns |
| `Answer.OutputAmbiguous` | main.py:113 | for any a, b, c, the replies (a + "\nSources: " + b, c) and (a, b + "\nSources: " + c) differ but give the same output, so the output alone does not determine the reply |
| `Transcript.KeyTextInjective` | main.py:124-128 | different keys give different key strings: `str(i)` never equals `str(j) + "_user"`, and distinct entries get distinct strings of each kind |
| `Transcript.Display` | main.py:121-128 | two bubbles per entry; `DisplayAt` gives each position and `DisplayKeysUnique` the distinct keys |
| `Transcript.DisplayAt` | main.py:121-128 | the display has two bubbles per entry; positions 2t and 2t+1 show entry n-1-t, its answer first and then its question |
| `Transcript.DisplayKeysUnique` | main.py:121-128 | no two bubbles of one display share a key or a key string, so each entry is shown exactly once |
| `Transcript.DisplayAfterRecord` | main.py:116-128 | appending one pair puts its answer and question bubbles in front of the previous display |
| `Transcript.Session.constructor` | main.py:83-87 | both session lists start empty |
| `Transcript.Session.Ask` | main.py:100-117 | an empty input changes nothing; otherwise exactly the question is appended to `past` and its formatted reply to `generated`, keeping both lists the same length and all earlier entries |
| `Transcript.Session.Render` | main.py:121-128 | the bubbles shown are exactly `Display(past, generated)`: newest entry first, answer before question |

## Left out

- The web page: the page set-up, the text input widget, how bubbles are drawn, and the
  `initialized` flag (main.py:72-98). The flag is always set to true before it is tested, so
  the warning branch can never run. The model takes the input text as a parameter.
- The retrieval chain and the completion service (main.py:48-53, main.py:58-66, main.py:104).
  These are remote calls, so they are total function parameters. Their settings are not modelled:
  model names, temperature 0.3, `max_tokens=50` and the other sampling parameters.
  Errors they raise are not modelled. Nor is a result dictionary without `answer` or `sources`,
  or a completion response without choices.
- The internals of `CharacterTextSplitter` (ingest.py:61). This is library code. It is a
  parameter that receives the constants 1500 and `"\n"`.
- Embeddings, `np.vstack`, building the FAISS index, writing and reading the index and the
  pickle, and detaching and reattaching `store.index` (ingest.py:70-81, main.py:32-38).
  These are floating-point vectors and library persistence formats.
- `load_dotenv`, environment variables and `config.json` (ingest.py:26-31, main.py:26-29).
  The supported extensions are a parameter. The directory traversal of `Path.glob` and file
  reading are parameters too. `Path` objects are modelled as strings.
- Text.AsciiLower: lower-cases ASCII letters only. Python's `str.lower()` also lower-cases
  other letters, so an answer containing, say, the Kelvin sign in place of `k` triggers
  the fallback in Python but not in the model.
- Ingest.SplitDocuments: every metadata entry is its own value. In Python, `[m] * n` makes the
  n entries references to one shared dictionary. Nothing mutates them afterwards, so the
  aliasing does not matter here.
- Ingest.LoadDocuments: a read failure is one `None`. Which exception it was (file missing,
  decode error) is not distinguished.
