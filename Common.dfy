/** Shared vocabulary of the chat-log pipeline: the error kinds a run can
    end with, the configuration lists the normaliser and the aggregator
    read, and the external collaborators (tokenizer, width normaliser,
    regular expressions) that the model treats as given functions. */
module Common {

  datatype Option<+T> = None | Some(value: T)

  /** The three ways a run aborts. */
  datatype Error =
    | FormatError     // a file whose top-level JSON shape does not fit the sniffed format
    | IntegrityError  // the normaliser produced the tripwire token (KeyError in the source)
    | EmptyInput      // no message survived ingestion (IndexError at messages[0])

  datatype Result<+T> = Ok(value: T) | Err(error: Error)

  /** One segmenter token: the first part-of-speech field and its surface text. */
  datatype Morpheme = Morpheme(pos: string, surface: string)

  /** A compiled pattern rule: the pattern's source text and its canonical token. */
  datatype Rule = Rule(pattern: string, replacement: string)

  /** The configuration lists, in their iteration order. */
  datatype Config = Config(
    stopWords: seq<string>,
    rules: seq<Rule>,
    phrases: seq<string>,
    excludedTerms: seq<string>)

  /** Collaborators outside the model, as fixed functions:
      - stripUrls: the URL substitution of lib/message.py:40;
      - findAll: `re.findall` of a rule's pattern over a text;
      - toFullWidth: `jaconv.h2z`;
      - tokenize: the segmenter in split mode C;
      - iterationOrder: the order in which a Python set of strings is iterated. */
  datatype Externals = Externals(
    stripUrls: string -> string,
    findAll: (string, string) -> seq<string>,
    toFullWidth: string -> string,
    tokenize: string -> seq<Morpheme>,
    iterationOrder: set<string> -> seq<string>)
}
