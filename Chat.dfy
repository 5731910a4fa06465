/** lib/chat.py up to the sort: per-record filters, reading a file in the
    sniffed format, de-duplication against earlier files, and the sort
    by timestamp. */
module Chat {
  import opened Common
  import opened Text
  import opened Message

  /** The bot whose messages are dropped. */
  const BOT := "fossabot"

  /** Some excluded term occurs in the text. */
  predicate Excluded(text: string, terms: seq<string>) {
    exists k :: 0 <= k < |terms| && Contains(text, terms[k])
  }

  // ---------------------------------------------------------------------
  // Record filters: None is a silent drop

  /** `_make_td_message`: the bot check applies only when the author has a name. */
  function DownloaderOutcome(raw: DownloaderRecord, cfg: Config, ext: Externals): (r: Result<Option<Message>>)
    ensures r == Ok(None) <==> raw.authorName == Some(BOT) || Excluded(raw.message, cfg.excludedTerms)
    ensures r.Ok? && r.value.Some? ==> DownloaderMessage(raw, cfg, ext) == Ok(r.value.value)
    ensures r.Err? ==> DownloaderMessage(raw, cfg, ext) == Err(r.error)
  {
    if raw.authorName == Some(BOT) || Excluded(raw.message, cfg.excludedTerms) then Ok(None)
    else match DownloaderMessage(raw, cfg, ext)
      case Ok(m) => Ok(Some(m))
      case Err(e) => Err(e)
  }

  /** `_make_tv_message`. */
  function VodOutcome(raw: VodRecord, cfg: Config, ext: Externals): (r: Result<Option<Message>>)
    ensures r == Ok(None) <==> raw.commenterName == BOT || Excluded(raw.body, cfg.excludedTerms)
    ensures r.Ok? && r.value.Some? ==> VodMessage(raw, cfg, ext) == Ok(r.value.value)
    ensures r.Err? ==> VodMessage(raw, cfg, ext) == Err(r.error)
  {
    if raw.commenterName == BOT || Excluded(raw.body, cfg.excludedTerms) then Ok(None)
    else match VodMessage(raw, cfg, ext)
      case Ok(m) => Ok(Some(m))
      case Err(e) => Err(e)
  }

  method MakeDownloaderMessage(raw: DownloaderRecord, cfg: Config, ext: Externals)
    returns (r: Result<Option<Message>>)
    ensures r == DownloaderOutcome(raw, cfg, ext)
  {
    if raw.authorName.Some? && raw.authorName.value == BOT {
      return Ok(None);
    }
    for k := 0 to |cfg.excludedTerms|
      invariant forall j :: 0 <= j < k ==> !Contains(raw.message, cfg.excludedTerms[j])
    {
      if Contains(raw.message, cfg.excludedTerms[k]) {
        return Ok(None);
      }
    }
    var m := NewDownloaderMessage(raw, cfg, ext);
    if m.Err? {
      return Err(m.error);
    }
    r := Ok(Some(m.value));
  }

  method MakeVodMessage(raw: VodRecord, cfg: Config, ext: Externals)
    returns (r: Result<Option<Message>>)
    ensures r == VodOutcome(raw, cfg, ext)
  {
    if raw.commenterName == BOT {
      return Ok(None);
    }
    for k := 0 to |cfg.excludedTerms|
      invariant forall j :: 0 <= j < k ==> !Contains(raw.body, cfg.excludedTerms[j])
    {
      if Contains(raw.body, cfg.excludedTerms[k]) {
        return Ok(None);
      }
    }
    var m := NewVodMessage(raw, cfg, ext);
    if m.Err? {
      return Err(m.error);
    }
    r := Ok(Some(m.value));
  }

  // ---------------------------------------------------------------------
  // Files and their format

  /** The parsed top-level JSON value of an export. */
  datatype Json = JsonArray(records: seq<DownloaderRecord>) | JsonObject(comments: Option<seq<VodRecord>>)

  /** An input file: whether it is gzip-compressed, its first character
      (empty for an empty file) and its parsed content. */
  datatype ChatFile = ChatFile(gzipped: bool, head: string, json: Json)

  datatype Format = ChatDownloader | TwitchVOD

  /** The records of one file, in one of the two shapes. */
  datatype Batch = Downloads(records: seq<DownloaderRecord>) | Comments(comments: seq<VodRecord>)

  /** The sniff as written: only a gzip file yields bytes, so only there can
      the first read equal b"["; a plain file yields a str and never does. */
  function SniffAsWritten(f: ChatFile): Format {
    if f.gzipped && f.head == "[" then ChatDownloader else TwitchVOD
  }

  /** The sniff as intended: a file starting with '[' is a ChatDownloader export. */
  function Sniff(f: ChatFile): Format {
    if f.head == "[" then ChatDownloader else TwitchVOD
  }

  /** Reading the records in a given format; a shape that does not fit is fatal. */
  function Read(fmt: Format, json: Json): (r: Result<Batch>)
    ensures r.Err? ==> r.error == FormatError
    ensures r.Ok? ==> (fmt == ChatDownloader <==> r.value.Downloads?)
    ensures fmt == ChatDownloader && json.JsonArray? ==> r == Ok(Downloads(json.records))
    ensures fmt == ChatDownloader && json.JsonObject? ==> r == Err(FormatError)
    ensures fmt == TwitchVOD && json.JsonObject? && json.comments.Some? ==> r == Ok(Comments(json.comments.value))
    ensures fmt == TwitchVOD && !(json.JsonObject? && json.comments.Some?) ==> r == Err(FormatError)
  {
    match (fmt, json)
    case (ChatDownloader, JsonArray(records)) => Ok(Downloads(records))
    case (TwitchVOD, JsonObject(Some(comments))) => Ok(Comments(comments))
    case _ => Err(FormatError)
  }

  function LoadFileAsWritten(f: ChatFile): Result<Batch> {
    Read(SniffAsWritten(f), f.json)
  }

  function LoadFile(f: ChatFile): Result<Batch> {
    Read(Sniff(f), f.json)
  }

  /** A plain (not gzip) ChatDownloader export is misread as a TwitchVOD one
      and the run aborts; the intended sniff reads its records. */
  lemma PlainArrayFileMisread(records: seq<DownloaderRecord>)
    ensures LoadFileAsWritten(ChatFile(false, "[", JsonArray(records))) == Err(FormatError)
    ensures LoadFile(ChatFile(false, "[", JsonArray(records))) == Ok(Downloads(records))
  {
  }

  /** The two sniffs agree on every gzip file, and the intended one reads
      every well-formed file. */
  lemma LoadFileCorrected(f: ChatFile)
    ensures f.gzipped ==> LoadFileAsWritten(f) == LoadFile(f)
    ensures f.head == "[" && f.json.JsonArray? ==> LoadFile(f) == Ok(Downloads(f.json.records))
    ensures f.head != "[" && f.json.JsonObject? && f.json.comments.Some? ==>
      LoadFile(f) == Ok(Comments(f.json.comments.value))
  {
  }

  // ---------------------------------------------------------------------
  // One file's batch of messages

  /** The messages that survive the filters, in record order; the first
      failing record aborts. */
  function Survivors<R>(rs: seq<R>, outcome: R -> Result<Option<Message>>): Result<seq<Message>> {
    if rs == [] then Ok([])
    else match Survivors(rs[..|rs| - 1], outcome)
      case Err(e) => Err(e)
      case Ok(ms) =>
        match outcome(rs[|rs| - 1])
        case Err(e) => Err(e)
        case Ok(None) => Ok(ms)
        case Ok(Some(m)) => Ok(ms + [m])
  }

  /** A failure in a prefix of the records is the failure of the whole batch. */
  lemma {:induction false} SurvivorsFailureStays<R>(rs: seq<R>, k: nat, outcome: R -> Result<Option<Message>>)
    requires k <= |rs| && Survivors(rs[..k], outcome).Err?
    ensures Survivors(rs, outcome) == Survivors(rs[..k], outcome)
    decreases |rs| - k
  {
    if k < |rs| {
      assert rs[..k + 1][..k] == rs[..k];
      SurvivorsFailureStays(rs, k + 1, outcome);
    } else {
      assert rs[..k] == rs;
    }
  }

  function BatchMessages(b: Batch, cfg: Config, ext: Externals): Result<seq<Message>> {
    match b
    case Downloads(rs) => Survivors(rs, r => DownloaderOutcome(r, cfg, ext))
    case Comments(rs) => Survivors(rs, r => VodOutcome(r, cfg, ext))
  }

  /** The pool over a ChatDownloader file's records, run in record order. */
  method NormalizeDownloads(rs: seq<DownloaderRecord>, cfg: Config, ext: Externals) returns (r: Result<seq<Message>>)
    ensures r == Survivors(rs, x => DownloaderOutcome(x, cfg, ext))
  {
    ghost var f := (x: DownloaderRecord) => DownloaderOutcome(x, cfg, ext);
    var msgs: seq<Message> := [];
    for k := 0 to |rs|
      invariant Survivors(rs[..k], f) == Ok(msgs)
    {
      var o := MakeDownloaderMessage(rs[k], cfg, ext);
      assert f(rs[k]) == o;
      assert rs[..k + 1][..k] == rs[..k] && rs[..k + 1][k] == rs[k];
      if o.Err? {
        assert Survivors(rs[..k + 1], f) == Err(o.error);
        SurvivorsFailureStays(rs, k + 1, f);
        return Err(o.error);
      }
      if o.value.Some? {
        msgs := msgs + [o.value.value];
      }
    }
    assert rs[..|rs|] == rs;
    r := Ok(msgs);
  }

  /** The pool over a TwitchVOD file's comments, run in comment order. */
  method NormalizeComments(rs: seq<VodRecord>, cfg: Config, ext: Externals) returns (r: Result<seq<Message>>)
    ensures r == Survivors(rs, x => VodOutcome(x, cfg, ext))
  {
    ghost var f := (x: VodRecord) => VodOutcome(x, cfg, ext);
    var msgs: seq<Message> := [];
    for k := 0 to |rs|
      invariant Survivors(rs[..k], f) == Ok(msgs)
    {
      var o := MakeVodMessage(rs[k], cfg, ext);
      assert f(rs[k]) == o;
      assert rs[..k + 1][..k] == rs[..k] && rs[..k + 1][k] == rs[k];
      if o.Err? {
        assert Survivors(rs[..k + 1], f) == Err(o.error);
        SurvivorsFailureStays(rs, k + 1, f);
        return Err(o.error);
      }
      if o.value.Some? {
        msgs := msgs + [o.value.value];
      }
    }
    assert rs[..|rs|] == rs;
    r := Ok(msgs);
  }

  method NormalizeBatch(b: Batch, cfg: Config, ext: Externals) returns (r: Result<seq<Message>>)
    ensures r == BatchMessages(b, cfg, ext)
  {
    match b {
      case Downloads(rs) => r := NormalizeDownloads(rs, cfg, ext);
      case Comments(rs) => r := NormalizeComments(rs, cfg, ext);
    }
  }

  // ---------------------------------------------------------------------
  // De-duplication across files

  function Ids(ms: seq<Message>): set<string> {
    set m | m in ms :: m.id
  }

  /** The messages whose id is not among the ids already loaded. */
  function FreshOnly(ms: seq<Message>, loaded: set<string>): (r: seq<Message>)
    ensures forall m :: multiset(r)[m] == if m.id in loaded then 0 else multiset(ms)[m]
  {
    if ms == [] then []
    else
      var last := ms[|ms| - 1];
      assert ms == ms[..|ms| - 1] + [last];
      FreshOnly(ms[..|ms| - 1], loaded) + (if last.id in loaded then [] else [last])
  }

  /** The ids of every message accepted so far. */
  function AllIds(accepted: seq<seq<Message>>): set<string> {
    if accepted == [] then {} else AllIds(accepted[..|accepted| - 1]) + Ids(accepted[|accepted| - 1])
  }

  function Flatten(accepted: seq<seq<Message>>): seq<Message> {
    if accepted == [] then [] else Flatten(accepted[..|accepted| - 1]) + accepted[|accepted| - 1]
  }

  /** The accepted messages of each file: those whose id no earlier file's
      accepted messages carry. */
  function Dedup(batches: seq<seq<Message>>): (r: seq<seq<Message>>)
    ensures |r| == |batches|
  {
    if batches == [] then []
    else
      var prev := Dedup(batches[..|batches| - 1]);
      prev + [FreshOnly(batches[|batches| - 1], AllIds(prev))]
  }

  lemma {:induction false} DedupPrefix(batches: seq<seq<Message>>, k: nat)
    requires k <= |batches|
    ensures Dedup(batches[..k]) == Dedup(batches)[..k]
    decreases |batches|
  {
    if k < |batches| {
      var init := batches[..|batches| - 1];
      assert init[..k] == batches[..k];
      DedupPrefix(init, k);
    } else {
      assert batches[..k] == batches;
    }
  }

  /** A message of file i is dropped iff an earlier file accepted its id;
      repeats inside file i itself are all kept. */
  lemma DedupKeepsFresh(batches: seq<seq<Message>>, i: nat)
    requires i < |batches|
    ensures Dedup(batches)[i] == FreshOnly(batches[i], AllIds(Dedup(batches)[..i]))
  {
    var d := Dedup(batches);
    var upto := batches[..i + 1];
    DedupPrefix(batches, i + 1);
    DedupPrefix(batches, i);
    assert upto[..|upto| - 1] == batches[..i];
    assert upto[|upto| - 1] == batches[i];
    assert Dedup(upto) == Dedup(batches[..i]) + [FreshOnly(batches[i], AllIds(Dedup(batches[..i])))];
    assert d[i] == d[..i + 1][i] == Dedup(upto)[i];
  }

  lemma {:induction false} AllIdsHas(accepted: seq<seq<Message>>, i: nat, m: Message)
    requires i < |accepted| && m in accepted[i]
    ensures m.id in AllIds(accepted)
    decreases |accepted|
  {
    if i < |accepted| - 1 {
      AllIdsHas(accepted[..|accepted| - 1], i, m);
    }
  }

  /** Two files never both contribute a message with the same id. */
  lemma DedupAcrossFiles(batches: seq<seq<Message>>, i: nat, j: nat, m: Message, n: Message)
    requires i < j < |batches|
    requires m in Dedup(batches)[i] && n in Dedup(batches)[j]
    ensures m.id != n.id
  {
    var d := Dedup(batches);
    DedupKeepsFresh(batches, j);
    AllIdsHas(d[..j], i, m);
    assert multiset(d[j])[n] > 0;
  }

  // ---------------------------------------------------------------------
  // All files

  /** Every file's surviving messages, the first failing file aborting. */
  function LoadAll(files: seq<ChatFile>, cfg: Config, ext: Externals): Result<seq<seq<Message>>> {
    if files == [] then Ok([])
    else match LoadAll(files[..|files| - 1], cfg, ext)
      case Err(e) => Err(e)
      case Ok(bs) =>
        match LoadFile(files[|files| - 1])
        case Err(e) => Err(e)
        case Ok(b) =>
          match BatchMessages(b, cfg, ext)
          case Err(e) => Err(e)
          case Ok(ms) => Ok(bs + [ms])
  }

  lemma {:induction false} LoadAllFailureStays(files: seq<ChatFile>, k: nat, cfg: Config, ext: Externals)
    requires k <= |files| && LoadAll(files[..k], cfg, ext).Err?
    ensures LoadAll(files, cfg, ext) == LoadAll(files[..k], cfg, ext)
    decreases |files| - k
  {
    if k < |files| {
      assert files[..k + 1][..k] == files[..k];
      LoadAllFailureStays(files, k + 1, cfg, ext);
    } else {
      assert files[..k] == files;
    }
  }

  /** The accepted messages of all files, in file order. */
  function Ingested(files: seq<ChatFile>, cfg: Config, ext: Externals): Result<seq<Message>> {
    match LoadAll(files, cfg, ext)
    case Ok(bs) => Ok(Flatten(Dedup(bs)))
    case Err(e) => Err(e)
  }

  /** The per-file loop of `parse_chat`: `messages` and `loadedIds` grow by
      each file's accepted messages. */
  method Ingest(files: seq<ChatFile>, cfg: Config, ext: Externals) returns (r: Result<seq<Message>>)
    ensures r == Ingested(files, cfg, ext)
  {
    var messages: seq<Message> := [];
    var loadedIds: set<string> := {};
    ghost var batches: seq<seq<Message>> := [];
    for k := 0 to |files|
      invariant LoadAll(files[..k], cfg, ext) == Ok(batches)
      invariant messages == Flatten(Dedup(batches))
      invariant loadedIds == AllIds(Dedup(batches))
    {
      assert files[..k + 1][..k] == files[..k];
      var b := LoadFile(files[k]);
      if b.Err? {
        LoadAllFailureStays(files, k + 1, cfg, ext);
        return Err(b.error);
      }
      var msgs := NormalizeBatch(b.value, cfg, ext);
      if msgs.Err? {
        LoadAllFailureStays(files, k + 1, cfg, ext);
        return Err(msgs.error);
      }
      var accepted := FreshOnly(msgs.value, loadedIds);
      assert (batches + [msgs.value])[..|batches|] == batches;
      batches := batches + [msgs.value];
      messages := messages + accepted;
      loadedIds := loadedIds + Ids(accepted);
    }
    assert files[..|files|] == files;
    r := Ok(messages);
  }

  // ---------------------------------------------------------------------
  // Sort by timestamp

  predicate SortedByTime(ms: seq<Message>) {
    forall i, j :: 0 <= i < j < |ms| ==> ms[i].timestamp <= ms[j].timestamp
  }

  lemma SortedCons(m: Message, ms: seq<Message>)
    requires SortedByTime(ms)
    requires forall j :: 0 <= j < |ms| ==> m.timestamp <= ms[j].timestamp
    ensures SortedByTime([m] + ms)
  {
    var r := [m] + ms;
    forall i, j | 0 <= i < j < |r| ensures r[i].timestamp <= r[j].timestamp {
      assert r[j] == ms[j - 1];
      if i > 0 {
        assert r[i] == ms[i - 1];
      }
    }
  }

  lemma SortedTail(ms: seq<Message>)
    requires SortedByTime(ms) && ms != []
    ensures SortedByTime(ms[1..])
    ensures forall j :: 0 <= j < |ms[1..]| ==> ms[0].timestamp <= ms[1..][j].timestamp
  {
  }

  /** A bound on every message of `src` and on `m` bounds every message of a
      list holding exactly those. */
  lemma BoundedBelow(x: Message, rest: seq<Message>, src: seq<Message>, m: Message)
    requires multiset(rest) == multiset(src) + multiset{m}
    requires forall j :: 0 <= j < |src| ==> x.timestamp <= src[j].timestamp
    requires x.timestamp <= m.timestamp
    ensures forall j :: 0 <= j < |rest| ==> x.timestamp <= rest[j].timestamp
  {
    forall j | 0 <= j < |rest| ensures x.timestamp <= rest[j].timestamp {
      assert rest[j] in multiset(rest);
      if rest[j] != m {
        assert rest[j] in multiset(src);
        var k :| 0 <= k < |src| && src[k] == rest[j];
      }
    }
  }

  /** Insertion after every message with an equal or earlier timestamp. */
  function InsertByTime(ms: seq<Message>, m: Message): (r: seq<Message>)
    requires SortedByTime(ms)
    ensures SortedByTime(r)
    ensures multiset(r) == multiset(ms) + multiset{m}
  {
    if ms == [] then [m]
    else if m.timestamp < ms[0].timestamp then
      SortedCons(m, ms);
      [m] + ms
    else
      SortedTail(ms);
      var rest := InsertByTime(ms[1..], m);
      BoundedBelow(ms[0], rest, ms[1..], m);
      SortedCons(ms[0], rest);
      assert ms == [ms[0]] + ms[1..];
      assert multiset([ms[0]] + rest) == multiset{ms[0]} + multiset(rest);
      [ms[0]] + rest
  }

  /** `messages.sort(key=datetime)`: a permutation in non-decreasing time order. */
  method SortByTime(ms: seq<Message>) returns (r: seq<Message>)
    ensures SortedByTime(r)
    ensures multiset(r) == multiset(ms)
  {
    r := [];
    for k := 0 to |ms|
      invariant SortedByTime(r)
      invariant multiset(r) == multiset(ms[..k])
    {
      assert ms[..k + 1] == ms[..k] + [ms[k]];
      r := InsertByTime(r, ms[k]);
    }
    assert ms[..|ms|] == ms;
  }
}
