/** lib/message.py: turning one chat record into a Message, i.e. an id, a
    timestamp, the set of emotes and the set of content tokens obtained
    by the normalisation pipeline of Message.__init__. */
module Message {
  import opened Common
  import opened Text

  const NOUN := "名詞"
  const VERB := "動詞"
  const AUX := "助動詞"
  /** The canonical laughter token. */
  const LAUGH := "ｗｗｗ"
  /** The token whose presence aborts construction. */
  const TRIPWIRE := "rtaClap r"
  const MICROS := 1000000

  /** A constructed message. Timestamps are microseconds since the epoch (UTC). */
  datatype Message = Message(id: string, timestamp: int, emotes: set<string>, tokens: set<string>)
  {
    /** The `words` property: content tokens together with emotes. */
    function Words(): (r: set<string>)
      ensures tokens <= r && emotes <= r
      ensures forall w :: w in r ==> w in tokens || w in emotes
    {
      tokens + emotes
    }

    /** `__len__`: emotes are not counted. */
    function Len(): (n: nat)
      ensures n <= |Words()|
      ensures emotes <= tokens ==> n == |Words()|
      ensures n + |emotes - tokens| == |Words()|
    {
      SubsetSize(tokens, tokens + emotes);
      assert emotes <= tokens ==> tokens + emotes == tokens;
      assert tokens + emotes == tokens + (emotes - tokens);
      assert tokens * (emotes - tokens) == {};
      |tokens|
    }
  }

  lemma {:induction false} SubsetSize<T>(a: set<T>, b: set<T>)
    requires a <= b
    ensures |a| <= |b|
    decreases a
  {
    if a != {} {
      var x :| x in a;
      SubsetSize(a - {x}, b - {x});
    }
  }

  // ---------------------------------------------------------------------
  // Substring stages

  /** The replace loops over emotes and over stop words. */
  method RemoveSubstrings(text: string, subs: seq<string>) returns (r: string)
    ensures r == RemoveEach(text, subs)
    ensures |r| <= |text|
  {
    r := text;
    for k := 0 to |subs|
      invariant RemoveEach(r, subs[k..]) == RemoveEach(text, subs)
    {
      assert subs[k..][1..] == subs[k + 1..];
      r := RemoveAll(r, subs[k]);
    }
  }

  /** The token set and the working text between stages. */
  datatype Work = Work(tokens: set<string>, text: string)

  /** A rule whose pattern text starts with '^' and ends with '$' clears the whole text. */
  predicate Anchored(pattern: string) {
    |pattern| > 0 && pattern[0] == '^' && pattern[|pattern| - 1] == '$'
  }

  /** One pattern rule: when it finds matches, its canonical token is added,
      and the text is cleared (anchored rule) or loses every match. */
  function ApplyRule(w: Work, rule: Rule, findAll: (string, string) -> seq<string>): Work {
    var matches := findAll(rule.pattern, w.text);
    if matches == [] then w
    else Work(w.tokens + {rule.replacement},
              if Anchored(rule.pattern) then "" else RemoveEach(w.text, matches))
  }

  /** A rule that finds matches adds its token and clears the text (anchored)
      or shortens it by at least its first match, when that match is non-empty
      and occurs; a rule without matches changes nothing. */
  lemma RuleEffect(w: Work, rule: Rule, findAll: (string, string) -> seq<string>)
    ensures var matches := findAll(rule.pattern, w.text);
      var r := ApplyRule(w, rule, findAll);
      && (matches == [] ==> r == w)
      && (matches != [] ==> r.tokens == w.tokens + {rule.replacement})
      && (matches != [] && Anchored(rule.pattern) ==> r.text == "")
      && (matches != [] && !Anchored(rule.pattern) && matches[0] != [] && Contains(w.text, matches[0]) ==>
            |r.text| <= |w.text| - |matches[0]|)
  {
    var matches := findAll(rule.pattern, w.text);
    if matches != [] && !Anchored(rule.pattern) && matches[0] != [] && Contains(w.text, matches[0]) {
      RemoveAllShrinks(w.text, matches[0]);
      assert RemoveEach(w.text, matches) == RemoveEach(RemoveAll(w.text, matches[0]), matches[1..]);
    }
  }

  function Replacements(rules: seq<Rule>): set<string> {
    if rules == [] then {} else {rules[0].replacement} + Replacements(rules[1..])
  }

  /** The rules in order: tokens only grow, and only by rule replacements. */
  function ApplyRules(w: Work, rules: seq<Rule>, findAll: (string, string) -> seq<string>): (r: Work)
    ensures w.tokens <= r.tokens <= w.tokens + Replacements(rules)
    ensures |r.text| <= |w.text|
    decreases rules
  {
    if rules == [] then w else ApplyRules(ApplyRule(w, rules[0], findAll), rules[1..], findAll)
  }

  /** The loop over pattern rules, with its inner loop over the matches. */
  method ApplyPatternRules(w: Work, rules: seq<Rule>, findAll: (string, string) -> seq<string>)
    returns (r: Work)
    ensures r == ApplyRules(w, rules, findAll)
  {
    var tokens := w.tokens;
    var message := w.text;
    for k := 0 to |rules|
      invariant ApplyRules(Work(tokens, message), rules[k..], findAll) == ApplyRules(w, rules, findAll)
    {
      assert rules[k..][1..] == rules[k + 1..];
      var rule := rules[k];
      var matches := findAll(rule.pattern, message);
      if matches != [] {
        tokens := tokens + {rule.replacement};
        if Anchored(rule.pattern) {
          message := "";
        } else {
          message := RemoveSubstrings(message, matches);
        }
      }
    }
    r := Work(tokens, message);
  }

  /** One known phrase: when it occurs, it becomes a token and is deleted. */
  function ExtractPhrase(w: Work, phrase: string): Work {
    if Contains(w.text, phrase) then Work(w.tokens + {phrase}, RemoveAll(w.text, phrase)) else w
  }

  /** A phrase that occurs becomes a token and the text loses at least one
      occurrence of it; a phrase that does not occur changes nothing. */
  lemma PhraseEffect(w: Work, phrase: string)
    ensures var r := ExtractPhrase(w, phrase);
      && (Contains(w.text, phrase) ==> r.tokens == w.tokens + {phrase})
      && (Contains(w.text, phrase) ==> |r.text| <= |w.text| - |phrase|)
      && (!Contains(w.text, phrase) ==> r == w)
  {
    if Contains(w.text, phrase) && phrase != [] {
      RemoveAllShrinks(w.text, phrase);
    }
  }

  /** The phrases in order: tokens only grow, and only by known phrases. */
  function ExtractPhrases(w: Work, phrases: seq<string>): (r: Work)
    ensures w.tokens <= r.tokens
    ensures forall t :: t in r.tokens ==> t in w.tokens || t in phrases
    ensures |r.text| <= |w.text|
    decreases phrases
  {
    if phrases == [] then w else ExtractPhrases(ExtractPhrase(w, phrases[0]), phrases[1..])
  }

  /** The loop over known phrases. */
  method ExtractKnownPhrases(w: Work, phrases: seq<string>) returns (r: Work)
    ensures r == ExtractPhrases(w, phrases)
  {
    var tokens := w.tokens;
    var message := w.text;
    for k := 0 to |phrases|
      invariant ExtractPhrases(Work(tokens, message), phrases[k..]) == ExtractPhrases(w, phrases)
    {
      assert phrases[k..][1..] == phrases[k + 1..];
      var pn := phrases[k];
      if Contains(message, pn) {
        tokens := tokens + {pn};
        message := RemoveAll(message, pn);
      }
    }
    r := Work(tokens, message);
  }

  // ---------------------------------------------------------------------
  // Run grouping over the segmenter output

  predicate IsHead(m: Morpheme) {
    m.pos == NOUN || m.pos == VERB
  }

  /** The surfaces of the auxiliary-verb tokens at the front of `ms`, joined. */
  function AuxText(ms: seq<Morpheme>): string {
    if ms != [] && ms[0].pos == AUX then ms[0].surface + AuxText(ms[1..]) else ""
  }

  /** Reference definition of the runs: every noun or verb token starts one,
      made of its surface and the auxiliary verbs right after it. */
  function Runs(ms: seq<Morpheme>): seq<string> {
    if ms == [] then []
    else if IsHead(ms[0]) then [ms[0].surface + AuxText(ms[1..])] + Runs(ms[1..])
    else Runs(ms[1..])
  }

  /** `''.join(parts)`. */
  function Concat(parts: seq<string>): string {
    if parts == [] then "" else Concat(parts[..|parts| - 1]) + parts[|parts| - 1]
  }

  /** The runs still to come from a state of the grouping loop: the open
      run (completed by the auxiliary verbs ahead) and the runs of `rest`. */
  function Pending(runs: seq<string>, inRun: bool, parts: seq<string>, rest: seq<Morpheme>): seq<string> {
    runs + (if inRun then [Concat(parts) + AuxText(rest)] else []) + Runs(rest)
  }

  lemma ExtendStep(runs: seq<string>, parts: seq<string>, m: Morpheme, rest: seq<Morpheme>)
    requires m.pos == AUX
    ensures Pending(runs, true, parts, [m] + rest) == Pending(runs, true, parts + [m.surface], rest)
  {
    assert ([m] + rest)[1..] == rest;
    assert !IsHead(m);
    assert AuxText([m] + rest) == m.surface + AuxText(rest);
    assert (parts + [m.surface])[..|parts|] == parts;
    assert Concat(parts + [m.surface]) == Concat(parts) + m.surface;
    assert Concat(parts) + (m.surface + AuxText(rest)) == (Concat(parts) + m.surface) + AuxText(rest);
  }

  lemma CloseStep(runs: seq<string>, parts: seq<string>, ms: seq<Morpheme>)
    requires ms != [] && ms[0].pos != AUX
    ensures Pending(runs, true, parts, ms) == Pending(runs + [Concat(parts)], false, [], ms)
  {
    assert AuxText(ms) == "";
    assert Concat(parts) + AuxText(ms) == Concat(parts);
  }

  lemma OpenStep(runs: seq<string>, m: Morpheme, rest: seq<Morpheme>)
    requires IsHead(m)
    ensures Pending(runs, false, [], [m] + rest) == Pending(runs, true, [m.surface], rest)
  {
    assert ([m] + rest)[1..] == rest;
    assert [m.surface][..0] == [];
    assert Concat([m.surface]) == m.surface;
  }

  lemma SkipStep(runs: seq<string>, m: Morpheme, rest: seq<Morpheme>)
    requires !IsHead(m)
    ensures Pending(runs, false, [], [m] + rest) == Pending(runs, false, [], rest)
  {
    assert ([m] + rest)[1..] == rest;
  }

  /** The state machine over the segmenter output: `inRun` is the truth of
      `currentpart`, `parts` the surfaces of the open run. */
  method GroupRuns(ms: seq<Morpheme>) returns (runs: seq<string>)
    ensures runs == Runs(ms)
  {
    runs := [];
    var parts: seq<string> := [];
    var inRun := false;
    for k := 0 to |ms|
      invariant inRun <==> parts != []
      invariant Runs(ms) == Pending(runs, inRun, parts, ms[k..])
    {
      var m := ms[k];
      assert ms[k..] == [m] + ms[k + 1..];
      if inRun {
        if m.pos == AUX {
          ExtendStep(runs, parts, m, ms[k + 1..]);
          parts := parts + [m.surface];
        } else {
          CloseStep(runs, parts, ms[k..]);
          runs := runs + [Concat(parts)];
          parts := [];
          if IsHead(m) {
            OpenStep(runs, m, ms[k + 1..]);
            inRun := true;
            parts := parts + [m.surface];
          } else {
            SkipStep(runs, m, ms[k + 1..]);
            inRun := false;
          }
        }
      } else if IsHead(m) {
        OpenStep(runs, m, ms[k + 1..]);
        inRun := true;
        parts := parts + [m.surface];
      } else {
        SkipStep(runs, m, ms[k + 1..]);
      }
    }
    assert ms[|ms|..] == [];
    assert Concat(parts) + AuxText([]) == Concat(parts);
    if parts != [] {
      runs := runs + [Concat(parts)];
    }
  }

  /** Each run corresponds to one noun or verb token. */
  lemma {:induction false} RunsFromHeads(ms: seq<Morpheme>, r: string)
    ensures r in Runs(ms) <==>
      exists i :: 0 <= i < |ms| && IsHead(ms[i]) && r == ms[i].surface + AuxText(ms[i + 1..])
  {
    if ms != [] {
      RunsFromHeads(ms[1..], r);
      if r in Runs(ms[1..]) {
        var i :| 0 <= i < |ms[1..]| && IsHead(ms[1..][i]) && r == ms[1..][i].surface + AuxText(ms[1..][i + 1..]);
        assert ms[1..][i + 1..] == ms[i + 2..];
        assert IsHead(ms[i + 1]) && r == ms[i + 1].surface + AuxText(ms[i + 1 + 1..]);
      }
      if exists i :: 0 <= i < |ms| && IsHead(ms[i]) && r == ms[i].surface + AuxText(ms[i + 1..]) {
        var i :| 0 <= i < |ms| && IsHead(ms[i]) && r == ms[i].surface + AuxText(ms[i + 1..]);
        if i > 0 {
          assert ms[1..][i - 1] == ms[i] && ms[1..][i - 1 + 1..] == ms[i + 1..];
        }
      }
    }
  }

  /** Without a noun or verb there is no run. */
  lemma {:induction false} RunsEmptyIffNoHead(ms: seq<Morpheme>)
    ensures Runs(ms) == [] <==> forall i :: 0 <= i < |ms| ==> !IsHead(ms[i])
  {
    if ms != [] {
      RunsEmptyIffNoHead(ms[1..]);
      if !IsHead(ms[0]) && forall i :: 0 <= i < |ms[1..]| ==> !IsHead(ms[1..][i]) {
        forall i | 0 <= i < |ms| ensures !IsHead(ms[i]) {
          if i > 0 { assert ms[i] == ms[1..][i - 1]; }
        }
      }
    }
  }

  // ---------------------------------------------------------------------
  // Laughter, fallback, tripwire

  /** A token carrying a Latin 'w' or a full-width 'ｗ' is laughter slang. */
  predicate HasLaughMark(w: string) {
    'w' in w || 'ｗ' in w
  }

  function Collapse(tokens: set<string>): set<string> {
    var marked := set w | w in tokens && HasLaughMark(w);
    if marked == {} then tokens else tokens - marked + {LAUGH}
  }

  /** The laughter loop over a copy of the token set. */
  method CollapseLaughter(tokens: set<string>) returns (r: set<string>)
    ensures r == Collapse(tokens)
    ensures LAUGH in r <==> exists w :: w in tokens && HasLaughMark(w)
    ensures forall w :: w in r && w != LAUGH ==> !HasLaughMark(w)
    ensures forall w :: !HasLaughMark(w) ==> (w in r <==> w in tokens)
  {
    r := tokens;
    var kusa := false;
    var pending := tokens;
    while pending != {}
      invariant pending <= tokens
      invariant r == tokens - (set w | w in tokens - pending && HasLaughMark(w))
      invariant kusa <==> exists w :: w in tokens - pending && HasLaughMark(w)
      decreases pending
    {
      var word :| word in pending;
      if HasLaughMark(word) {
        kusa := true;
        r := r - {word};
      }
      pending := pending - {word};
    }
    assert HasLaughMark(LAUGH) by { assert LAUGH[0] == 'ｗ'; }
    if kusa {
      r := r + {LAUGH};
    }
  }

  /** An empty token set is replaced by the stripped leftover text, if any. */
  function Fallback(tokens: set<string>, leftover: string): set<string> {
    if tokens == {} && leftover != "" then {leftover} else tokens
  }

  /** Stages up to and including known-phrase extraction. */
  function Extracted(text: string, emoteOrder: seq<string>, cfg: Config, ext: Externals): Work {
    var noEmotes := RemoveEach(text, emoteOrder);
    var noStops := RemoveEach(noEmotes, cfg.stopWords);
    var noUrls := ext.stripUrls(noStops);
    var afterRules := ApplyRules(Work({}, noUrls), cfg.rules, ext.findAll);
    ExtractPhrases(afterRules, cfg.phrases)
  }

  /** The width-normalised text handed to the segmenter. */
  function FullText(text: string, emoteOrder: seq<string>, cfg: Config, ext: Externals): string {
    ext.toFullWidth(Extracted(text, emoteOrder, cfg, ext).text)
  }

  /** The token set before laughter collapsing: the extracted tokens and the runs. */
  function Gathered(text: string, emoteOrder: seq<string>, cfg: Config, ext: Externals): set<string> {
    Extracted(text, emoteOrder, cfg, ext).tokens + set r | r in Runs(ext.tokenize(FullText(text, emoteOrder, cfg, ext)))
  }

  /** The token set after run grouping and laughter collapsing. */
  function Collapsed(text: string, emoteOrder: seq<string>, cfg: Config, ext: Externals): set<string> {
    Collapse(Gathered(text, emoteOrder, cfg, ext))
  }

  /** The whole normalisation of one message text. */
  function Normalized(text: string, emoteOrder: seq<string>, cfg: Config, ext: Externals): Result<set<string>> {
    var tokens := Fallback(Collapsed(text, emoteOrder, cfg, ext), Strip(FullText(text, emoteOrder, cfg, ext)));
    if TRIPWIRE in tokens then Err(IntegrityError) else Ok(tokens)
  }

  /** Message.__init__ after `_init_items`: `emoteOrder` lists the emote set
      in its iteration order. */
  method Normalize(text: string, emoteOrder: seq<string>, cfg: Config, ext: Externals)
    returns (r: Result<set<string>>)
    ensures r == Normalized(text, emoteOrder, cfg, ext)
    ensures r.Err? ==> r.error == IntegrityError
    ensures r.Ok? ==> TRIPWIRE !in r.value
  {
    var message := RemoveSubstrings(text, emoteOrder);
    message := RemoveSubstrings(message, cfg.stopWords);
    message := ext.stripUrls(message);
    var w := ApplyPatternRules(Work({}, message), cfg.rules, ext.findAll);
    w := ExtractKnownPhrases(w, cfg.phrases);
    message := ext.toFullWidth(w.text);
    var runs := GroupRuns(ext.tokenize(message));
    var tokens := w.tokens + set r | r in runs;
    tokens := CollapseLaughter(tokens);
    message := Strip(message);
    if tokens == {} && message != "" {
      tokens := {message};
    }
    if TRIPWIRE in tokens {
      return Err(IntegrityError);
    }
    r := Ok(tokens);
  }

  /** Every token of a normalised message comes from a rule, a known phrase,
      a run, the laughter collapse or the fallback. */
  lemma TokensOrigin(text: string, emoteOrder: seq<string>, cfg: Config, ext: Externals, t: string)
    requires Normalized(text, emoteOrder, cfg, ext).Ok?
    requires t in Normalized(text, emoteOrder, cfg, ext).value
    ensures t == LAUGH || t in Replacements(cfg.rules) || t in cfg.phrases
         || t in Runs(ext.tokenize(FullText(text, emoteOrder, cfg, ext)))
         || t == Strip(FullText(text, emoteOrder, cfg, ext))
  {
    var full := FullText(text, emoteOrder, cfg, ext);
    NormalizedValue(text, emoteOrder, cfg, ext);
    if t != LAUGH && t != Strip(full) {
      var before := Gathered(text, emoteOrder, cfg, ext);
      assert t in Collapse(before);
      assert t in before;
      var noUrls := ext.stripUrls(RemoveEach(RemoveEach(text, emoteOrder), cfg.stopWords));
      var afterRules := ApplyRules(Work({}, noUrls), cfg.rules, ext.findAll);
      assert Extracted(text, emoteOrder, cfg, ext) == ExtractPhrases(afterRules, cfg.phrases);
    }
  }

  /** A successful normalisation is the fallback applied to the collapsed tokens. */
  lemma NormalizedValue(text: string, emoteOrder: seq<string>, cfg: Config, ext: Externals)
    requires Normalized(text, emoteOrder, cfg, ext).Ok?
    ensures Normalized(text, emoteOrder, cfg, ext).value
      == Fallback(Collapse(Gathered(text, emoteOrder, cfg, ext)), Strip(FullText(text, emoteOrder, cfg, ext)))
  {
  }

  lemma FallbackLaugh(before: set<string>, leftover: string, t: string)
    requires t in Fallback(Collapse(before), leftover) && HasLaughMark(t)
    ensures t == LAUGH || Fallback(Collapse(before), leftover) == {leftover}
  {
    if !(Collapse(before) == {} && leftover != "") {
      assert t in Collapse(before);
    }
  }

  /** Apart from a fallback token, the only token with a laughter mark is ｗｗｗ. */
  lemma LaughterCollapsed(text: string, emoteOrder: seq<string>, cfg: Config, ext: Externals, t: string)
    requires Normalized(text, emoteOrder, cfg, ext).Ok?
    requires t in Normalized(text, emoteOrder, cfg, ext).value
    requires HasLaughMark(t)
    ensures t == LAUGH || Normalized(text, emoteOrder, cfg, ext).value == {Strip(FullText(text, emoteOrder, cfg, ext))}
  {
    NormalizedValue(text, emoteOrder, cfg, ext);
    FallbackLaugh(Gathered(text, emoteOrder, cfg, ext), Strip(FullText(text, emoteOrder, cfg, ext)), t);
  }

  /** A message normalised to no token at all had no visible leftover text. */
  lemma EmptyOnlyWithoutLeftover(text: string, emoteOrder: seq<string>, cfg: Config, ext: Externals)
    requires Normalized(text, emoteOrder, cfg, ext) == Ok({})
    ensures Strip(FullText(text, emoteOrder, cfg, ext)) == ""
  {
  }

  /** The fallback runs after the collapse, so a leftover laughter text the
      segmenter found no run in stays as it is: "w" yields the token "w". */
  lemma FallbackKeepsLaughter()
    ensures var ext := Externals(s => s, (p, s) => [], s => s, s => [], ws => []);
      Normalized("w", [], Config([], [], [], []), ext) == Ok({"w"})
  {
    var ext := Externals(s => s, (p, s) => [], s => s, s => [], ws => []);
    var cfg := Config([], [], [], []);
    var w := Work({}, "w");
    assert RemoveEach("w", []) == "w";
    assert ext.stripUrls("w") == "w";
    assert ApplyRules(w, [], ext.findAll) == w;
    assert ExtractPhrases(w, []) == w;
    assert Extracted("w", [], cfg, ext) == w;
    assert FullText("w", [], cfg, ext) == "w";
    assert ext.tokenize("w") == [];
    assert Runs([]) == [];
    assert Collapse({}) == {};
    assert Collapsed("w", [], cfg, ext) == {};
    assert Strip("w") == "w" by {
      assert !IsSpace('w');
      assert TrimStart("w") == "w";
      assert TrimEnd("w") == "w";
    }
    assert "w" != TRIPWIRE;
  }

  // ---------------------------------------------------------------------
  // The two record formats (`_init_items`)

  /** A ChatDownloader record: `timestamp` is in microseconds; `emotes` lists
      the emote names and is absent when the record has no "emotes" key. */
  datatype DownloaderRecord = DownloaderRecord(
    messageId: string, authorName: Option<string>, message: string,
    emotes: Option<seq<string>>, timestamp: int)

  /** An emoticon's character offsets into the message body. */
  datatype Span = Span(begin: int, end: int)

  /** A TwitchVOD comment; `createdAt` is its ISO-8601 time already read as
      microseconds since the epoch (UTC); `emoticons` is None for null. */
  datatype VodRecord = VodRecord(
    id: string, commenterName: string, body: string,
    emoticons: Option<seq<Span>>, createdAt: int)

  /** The emote names of a ChatDownloader record, minus stop words. */
  function DownloaderEmotes(raw: DownloaderRecord, stopWords: seq<string>): (r: set<string>)
    ensures raw.emotes.None? ==> r == {}
    ensures raw.emotes.Some? ==> forall e :: e in r <==> e in raw.emotes.value && e !in stopWords
  {
    if raw.emotes.Some? then set e | e in raw.emotes.value && e !in stopWords else {}
  }

  /** Integer division of a microsecond count by 10^6: the whole second containing it. */
  function WholeSeconds(micros: int): (s: int)
    ensures s * MICROS <= micros < s * MICROS + MICROS
  {
    micros / MICROS
  }

  /** `message[begin:end].strip()`. */
  function EmoteText(body: string, span: Span): string {
    Strip(Slice(body, span.begin, span.end))
  }

  /** The image of a sequence under f, as a set. */
  function Image<A(==), B>(f: A -> B, xs: seq<A>): set<B> {
    set x | x in xs :: f(x)
  }

  lemma ImageSnoc<A, B>(f: A -> B, xs: seq<A>, x: A)
    ensures Image(f, xs + [x]) == Image(f, xs) + {f(x)}
  {
    var l := Image(f, xs + [x]);
    var r := Image(f, xs) + {f(x)};
    forall e | e in l ensures e in r {
      var t :| t in xs + [x] && e == f(t);
      if t != x {
        assert t in xs;
      }
    }
    forall e | e in r ensures e in l {
      if e != f(x) {
        var t :| t in xs && e == f(t);
        assert t in xs + [x];
      } else {
        assert x in xs + [x];
      }
    }
  }

  lemma ImageMembership<A, B>(f: A -> B, xs: seq<A>, e: B)
    ensures e in Image(f, xs) <==> exists k :: 0 <= k < |xs| && e == f(xs[k])
  {
    if e in Image(f, xs) {
      var s :| s in xs && e == f(s);
      var k :| 0 <= k < |xs| && xs[k] == s;
    }
  }

  /** The stripped slices of the given emoticons. */
  function SpanEmotes(body: string, spans: seq<Span>): set<string> {
    Image(s => EmoteText(body, s), spans)
  }

  /** The emote strings of a TwitchVOD comment: each emoticon's stripped slice of the body. */
  function VodEmoteSet(body: string, emoticons: Option<seq<Span>>): set<string> {
    if emoticons.Some? then SpanEmotes(body, emoticons.value) else {}
  }

  /** An emote of the comment is exactly the stripped slice of one of its emoticons. */
  lemma SpanEmotesMembership(body: string, spans: seq<Span>, e: string)
    ensures e in SpanEmotes(body, spans) <==> exists k :: 0 <= k < |spans| && e == EmoteText(body, spans[k])
  {
    ImageMembership(s => EmoteText(body, s), spans, e);
  }

  /** The loop adding each emoticon's slice; null and an empty list give no emote. */
  method VodEmotes(body: string, emoticons: Option<seq<Span>>) returns (emotes: set<string>)
    ensures emotes == VodEmoteSet(body, emoticons)
    ensures emoticons.None? || emoticons == Some([]) ==> emotes == {}
  {
    emotes := {};
    if emoticons.Some? && emoticons.value != [] {
      var spans := emoticons.value;
      for k := 0 to |spans|
        invariant emotes == SpanEmotes(body, spans[..k])
      {
        assert spans[..k + 1] == spans[..k] + [spans[k]];
        ImageSnoc(s => EmoteText(body, s), spans[..k], spans[k]);
        emotes := emotes + {EmoteText(body, spans[k])};
      }
      assert spans[..|spans|] == spans;
    }
  }

  function DownloaderMessage(raw: DownloaderRecord, cfg: Config, ext: Externals): (r: Result<Message>)
    ensures r.Ok? ==> r.value.id == raw.messageId
    ensures r.Ok? ==> r.value.emotes == DownloaderEmotes(raw, cfg.stopWords)
    ensures r.Ok? ==> r.value.timestamp <= raw.timestamp < r.value.timestamp + MICROS
    ensures r.Ok? ==> r.value.timestamp % MICROS == 0
    ensures r.Err? ==> r.error == IntegrityError
    ensures Normalized(raw.message, ext.iterationOrder(DownloaderEmotes(raw, cfg.stopWords)), cfg, ext)
      == (if r.Ok? then Ok(r.value.tokens) else Err(r.error))
  {
    var emotes := DownloaderEmotes(raw, cfg.stopWords);
    match Normalized(raw.message, ext.iterationOrder(emotes), cfg, ext)
    case Ok(tokens) => Ok(Message(raw.messageId, WholeSeconds(raw.timestamp) * MICROS, emotes, tokens))
    case Err(e) => Err(e)
  }

  function VodMessage(raw: VodRecord, cfg: Config, ext: Externals): (r: Result<Message>)
    ensures r.Ok? ==> r.value.id == raw.id && r.value.timestamp == raw.createdAt
    ensures r.Ok? ==> r.value.emotes == VodEmoteSet(raw.body, raw.emoticons)
    ensures r.Err? ==> r.error == IntegrityError
    ensures Normalized(raw.body, ext.iterationOrder(VodEmoteSet(raw.body, raw.emoticons)), cfg, ext)
      == (if r.Ok? then Ok(r.value.tokens) else Err(r.error))
  {
    var emotes := VodEmoteSet(raw.body, raw.emoticons);
    match Normalized(raw.body, ext.iterationOrder(emotes), cfg, ext)
    case Ok(tokens) => Ok(Message(raw.id, raw.createdAt, emotes, tokens))
    case Err(e) => Err(e)
  }

  /** ChatDownloaderMessage(raw). */
  method NewDownloaderMessage(raw: DownloaderRecord, cfg: Config, ext: Externals) returns (r: Result<Message>)
    ensures r == DownloaderMessage(raw, cfg, ext)
  {
    var emotes := DownloaderEmotes(raw, cfg.stopWords);
    var timestamp := WholeSeconds(raw.timestamp) * MICROS;
    var tokens := Normalize(raw.message, ext.iterationOrder(emotes), cfg, ext);
    if tokens.Err? {
      return Err(tokens.error);
    }
    r := Ok(Message(raw.messageId, timestamp, emotes, tokens.value));
  }

  /** TwitchVODMessage(raw). */
  method NewVodMessage(raw: VodRecord, cfg: Config, ext: Externals) returns (r: Result<Message>)
    ensures r == VodMessage(raw, cfg, ext)
  {
    var emotes := VodEmotes(raw.body, raw.emoticons);
    var tokens := Normalize(raw.body, ext.iterationOrder(emotes), cfg, ext);
    if tokens.Err? {
      return Err(tokens.error);
    }
    r := Ok(Message(raw.id, raw.createdAt, emotes, tokens.value));
  }
}
