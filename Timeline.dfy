/** The windowing loop of `parse_chat` and `_make_timepoint` (lib/chat.py):
    sorted messages become a gap-free sequence of fixed-width windows, each
    labelled by its inclusive upper bound, with a message count and a
    per-word count. */
module Timeline {
  import opened Common
  import opened Message
  import opened Chat

  /** One timeline entry: `boundary` is the window's inclusive upper bound. */
  datatype Window = Window(boundary: int, count: nat, counts: map<string, nat>)

  /** `datetime.replace(microsecond=0)` on a microsecond timestamp. */
  function Truncate(ts: int): (r: int)
    ensures r <= ts < r + MICROS && r % MICROS == 0
  {
    ts - ts % MICROS
  }

  /** The first window boundary: the first timestamp truncated to seconds, plus one window. */
  function FirstLabel(ts: int, window: int): int {
    Truncate(ts) + window
  }

  /** A timestamp belongs to the window with the given boundary when that boundary
      is the smallest one of the grid first, first + window, ... not below it. */
  predicate Belongs(ts: int, boundary: int, first: int, window: int) {
    ts <= boundary && (boundary == first || boundary - window < ts)
  }

  /** The messages belonging to one window, in input order. */
  function Bucket(ms: seq<Message>, boundary: int, first: int, window: int): seq<Message> {
    if ms == [] then []
    else
      Bucket(ms[..|ms| - 1], boundary, first, window)
      + (if Belongs(ms[|ms| - 1].timestamp, boundary, first, window) then [ms[|ms| - 1]] else [])
  }

  lemma {:induction false} BucketEmpty(ms: seq<Message>, boundary: int, first: int, window: int)
    requires forall j :: 0 <= j < |ms| ==> !Belongs(ms[j].timestamp, boundary, first, window)
    ensures Bucket(ms, boundary, first, window) == []
  {
    if ms != [] {
      BucketEmpty(ms[..|ms| - 1], boundary, first, window);
    }
  }

  // ---------------------------------------------------------------------
  // Word counting (`_make_timepoint`)

  function Get(c: map<string, nat>, w: string): nat {
    if w in c then c[w] else 0
  }

  /** `Counter.update` with one message's word set. */
  function AddWords(c: map<string, nat>, words: set<string>): map<string, nat> {
    map w | w in c.Keys + words :: Get(c, w) + (if w in words then 1 else 0)
  }

  /** The Counter over all words of all messages of a batch. */
  function Tally(ms: seq<Message>): map<string, nat> {
    if ms == [] then map[] else AddWords(Tally(ms[..|ms| - 1]), ms[|ms| - 1].Words())
  }

  /** How many messages of the batch have `w` among their words. */
  function Holding(ms: seq<Message>, w: string): (n: nat)
    ensures n <= |ms|
  {
    if ms == [] then 0 else Holding(ms[..|ms| - 1], w) + (if w in ms[|ms| - 1].Words() then 1 else 0)
  }

  /** A word's count in a window is the number of its messages containing the
      word, so a word repeated inside one message counts once. */
  lemma {:induction false} TallyCountsMessages(ms: seq<Message>, w: string)
    ensures Get(Tally(ms), w) == Holding(ms, w)
    ensures w in Tally(ms) <==> Holding(ms, w) > 0
  {
    if ms != [] {
      TallyCountsMessages(ms[..|ms| - 1], w);
    }
  }

  /** `_make_timepoint` with the boundary in front. */
  function Timepoint(boundary: int, ms: seq<Message>): Window {
    Window(boundary, |ms|, Tally(ms))
  }

  // ---------------------------------------------------------------------
  // The windowing loop

  /** Labels start at `first` and go up by `window`. */
  predicate Grid(tl: seq<Window>, first: int, window: int) {
    (tl != [] ==> tl[0].boundary == first)
    && forall k :: 0 < k < |tl| ==> tl[k].boundary == tl[k - 1].boundary + window
  }

  /** Every window holds exactly its own messages of `ms`. */
  predicate Agrees(tl: seq<Window>, ms: seq<Message>, first: int, window: int) {
    forall k :: 0 <= k < |tl| ==> tl[k] == Timepoint(tl[k].boundary, Bucket(ms, tl[k].boundary, first, window))
  }

  function TotalCount(tl: seq<Window>): nat {
    if tl == [] then 0 else TotalCount(tl[..|tl| - 1]) + tl[|tl| - 1].count
  }

  lemma TotalCountSnoc(tl: seq<Window>, w: Window)
    ensures TotalCount(tl + [w]) == TotalCount(tl) + w.count
  {
    assert (tl + [w])[..|tl|] == tl;
  }

  lemma BucketSnoc(ms: seq<Message>, m: Message, boundary: int, first: int, window: int)
    ensures Bucket(ms + [m], boundary, first, window)
      == Bucket(ms, boundary, first, window) + (if Belongs(m.timestamp, boundary, first, window) then [m] else [])
  {
    assert (ms + [m])[..|ms|] == ms;
  }

  /** A message that belongs to none of the windows leaves them all as they are. */
  lemma AgreesSnoc(tl: seq<Window>, ms: seq<Message>, m: Message, first: int, window: int)
    requires Agrees(tl, ms, first, window)
    requires forall k :: 0 <= k < |tl| ==> !Belongs(m.timestamp, tl[k].boundary, first, window)
    ensures Agrees(tl, ms + [m], first, window)
  {
    forall k | 0 <= k < |tl|
      ensures Bucket(ms + [m], tl[k].boundary, first, window) == Bucket(ms, tl[k].boundary, first, window)
    {
      BucketSnoc(ms, m, tl[k].boundary, first, window);
    }
  }

  /** Closing a window over exactly its messages keeps the timeline in agreement. */
  lemma AgreesAppend(tl: seq<Window>, ms: seq<Message>, boundary: int, batch: seq<Message>, first: int, window: int)
    requires Agrees(tl, ms, first, window)
    requires batch == Bucket(ms, boundary, first, window)
    ensures Agrees(tl + [Timepoint(boundary, batch)], ms, first, window)
  {
  }

  /** The inner loop of the windowing: close empty windows until the one
      holding `m`, the first message beyond `current`, is reached. */
  method SkipGaps(tl: seq<Window>, current: int, ms: seq<Message>, m: Message, first: int, window: int)
    returns (tl': seq<Window>, current': int)
    requires window > 0 && current >= first
    requires Grid(tl, first, window) && tl != [] && tl[|tl| - 1].boundary == current
    requires forall k :: 0 <= k < |tl| ==> tl[k].boundary <= current
    requires Agrees(tl, ms + [m], first, window)
    requires forall j :: 0 <= j < |ms| ==> ms[j].timestamp <= current
    requires current < m.timestamp
    ensures Grid(tl', first, window) && tl' != [] && current' == tl'[|tl'| - 1].boundary + window
    ensures forall k :: 0 <= k < |tl'| ==> tl'[k].boundary <= current' - window
    ensures current' > first && current < current'
    ensures Agrees(tl', ms + [m], first, window)
    ensures Belongs(m.timestamp, current', first, window)
    ensures Bucket(ms, current', first, window) == []
    ensures TotalCount(tl') == TotalCount(tl)
  {
    tl', current' := tl, current;
    while true
      invariant Grid(tl', first, window)
      invariant tl' != [] && tl'[|tl'| - 1].boundary == current'
      invariant forall k :: 0 <= k < |tl'| ==> tl'[k].boundary <= current'
      invariant current' >= first
      invariant Agrees(tl', ms + [m], first, window)
      invariant forall j :: 0 <= j < |ms| ==> ms[j].timestamp <= current'
      invariant m.timestamp > current'
      invariant TotalCount(tl') == TotalCount(tl)
      decreases m.timestamp - current'
    {
      current' := current' + window;
      BucketEmpty(ms, current', first, window);
      if m.timestamp <= current' {
        return;
      }
      BucketSnoc(ms, m, current', first, window);
      AgreesAppend(tl', ms + [m], current', [], first, window);
      TotalCountSnoc(tl', Timepoint(current', []));
      tl' := tl' + [Timepoint(current', [])];
    }
  }

  /** What the windowing loop knows after the messages `pre`: the closed windows
      `tl` form a grid and agree with `pre`, `current` is the next boundary and
      `batch` holds exactly the messages of `pre` that belong to it. */
  predicate Progress(tl: seq<Window>, current: int, batch: seq<Message>, pre: seq<Message>, first: int, window: int) {
    && Grid(tl, first, window)
    && current == (if tl == [] then first else tl[|tl| - 1].boundary + window)
    && (forall k :: 0 <= k < |tl| ==> tl[k].boundary <= current - window)
    && current >= first
    && Agrees(tl, pre, first, window)
    && batch == Bucket(pre, current, first, window)
    && (forall j :: 0 <= j < |pre| ==> pre[j].timestamp <= current)
    && (pre != [] ==> Belongs(pre[|pre| - 1].timestamp, current, first, window) && batch != [])
    && (pre == [] ==> tl == [] && current == first)
    && TotalCount(tl) + |batch| == |pre|
  }

  /** A message no later than the current boundary joins the open batch. */
  lemma JoinStep(tl: seq<Window>, current: int, batch: seq<Message>, pre: seq<Message>, m: Message, first: int, window: int)
    requires window > 0
    requires Progress(tl, current, batch, pre, first, window)
    requires pre != [] ==> pre[|pre| - 1].timestamp <= m.timestamp
    requires m.timestamp <= current
    ensures Progress(tl, current, batch + [m], pre + [m], first, window)
  {
    BucketSnoc(pre, m, current, first, window);
    AgreesSnoc(tl, pre, m, first, window);
  }

  /** A message beyond the current boundary closes the open batch as a window. */
  lemma CloseBatch(tl: seq<Window>, current: int, batch: seq<Message>, pre: seq<Message>, m: Message, first: int, window: int)
    requires window > 0
    requires Progress(tl, current, batch, pre, first, window)
    requires pre != [] ==> pre[|pre| - 1].timestamp <= m.timestamp
    requires current < m.timestamp
    ensures var closed := tl + [Timepoint(current, batch)];
      && Grid(closed, first, window) && closed[|closed| - 1].boundary == current
      && (forall k :: 0 <= k < |closed| ==> closed[k].boundary <= current)
      && Agrees(closed, pre + [m], first, window)
      && TotalCount(closed) == |pre|
  {
    BucketSnoc(pre, m, current, first, window);
    AgreesSnoc(tl, pre, m, first, window);
    AgreesAppend(tl, pre + [m], current, batch, first, window);
    TotalCountSnoc(tl, Timepoint(current, batch));
  }

  /** A later message closes the batch; after the gap windows it opens a new one. */
  lemma NewWindowStep(current: int, pre: seq<Message>, m: Message,
                      tl': seq<Window>, current': int, first: int, window: int)
    requires current >= first
    requires forall j :: 0 <= j < |pre| ==> pre[j].timestamp <= current
    requires Grid(tl', first, window) && tl' != [] && current' == tl'[|tl'| - 1].boundary + window
    requires forall k :: 0 <= k < |tl'| ==> tl'[k].boundary <= current' - window
    requires current < current'
    requires Agrees(tl', pre + [m], first, window)
    requires Belongs(m.timestamp, current', first, window)
    requires Bucket(pre, current', first, window) == []
    requires TotalCount(tl') == |pre|
    ensures Progress(tl', current', [m], pre + [m], first, window)
  {
    var pre' := pre + [m];
    BucketSnoc(pre, m, current', first, window);
    assert [m] == Bucket(pre', current', first, window);
    assert TotalCount(tl') + 1 == |pre'|;
    forall j | 0 <= j < |pre'| ensures pre'[j].timestamp <= current' {
      if j < |pre| {
        assert pre'[j] == pre[j];
      }
    }
    assert pre'[|pre'| - 1] == m;
  }

  /** One turn of the windowing loop: message `m`, no earlier than the ones before it. */
  method Admit(tl: seq<Window>, current: int, batch: seq<Message>, pre: seq<Message>, m: Message, first: int, window: int)
    returns (tl': seq<Window>, current': int, batch': seq<Message>)
    requires window > 0
    requires Progress(tl, current, batch, pre, first, window)
    requires pre != [] ==> pre[|pre| - 1].timestamp <= m.timestamp
    ensures Progress(tl', current', batch', pre + [m], first, window)
  {
    if m.timestamp <= current {
      JoinStep(tl, current, batch, pre, m, first, window);
      tl', current', batch' := tl, current, batch + [m];
    } else {
      CloseBatch(tl, current, batch, pre, m, first, window);
      var closed := tl + [Timepoint(current, batch)];
      tl', current' := SkipGaps(closed, current, pre, m, first, window);
      NewWindowStep(current, pre, m, tl', current', first, window);
      batch' := [m];
    }
  }

  /** After the last message, the open batch closes the timeline. */
  lemma CloseLast(tl: seq<Window>, current: int, batch: seq<Message>, ms: seq<Message>, first: int, window: int)
    requires ms != [] && Progress(tl, current, batch, ms, first, window)
    ensures var tl' := tl + [Timepoint(current, batch)];
      && Grid(tl', first, window)
      && Agrees(tl', ms, first, window)
      && Belongs(ms[|ms| - 1].timestamp, tl'[|tl'| - 1].boundary, first, window)
      && (forall j :: 0 <= j < |ms| ==> ms[j].timestamp <= tl'[|tl'| - 1].boundary)
      && TotalCount(tl') == |ms|
  {
    AgreesAppend(tl, ms, current, batch, first, window);
    TotalCountSnoc(tl, Timepoint(current, batch));
  }

  /** The `for m in messages` loop: `current` is `currentwindow`, `batch` is
      `_messages`. */
  method Windows(ms: seq<Message>, first: int, window: int) returns (timeline: seq<Window>, current: int, batch: seq<Message>)
    requires window > 0
    requires SortedByTime(ms)
    ensures Progress(timeline, current, batch, ms, first, window)
  {
    timeline, current, batch := [], first, [];
    for i := 0 to |ms|
      invariant Progress(timeline, current, batch, ms[..i], first, window)
    {
      assert ms[..i + 1] == ms[..i] + [ms[i]];
      assert i > 0 ==> ms[..i][i - 1].timestamp <= ms[i].timestamp;
      timeline, current, batch := Admit(timeline, current, batch, ms[..i], ms[i], first, window);
    }
    assert ms[..|ms|] == ms;
  }

  /** The windowing of `parse_chat`: the loop, then the last open batch. */
  method BuildTimeline(ms: seq<Message>, window: int) returns (r: Result<seq<Window>>)
    requires window > 0
    requires SortedByTime(ms)
    ensures r.Err? <==> ms == []
    ensures r.Err? ==> r.error == EmptyInput
    ensures r.Ok? ==> r.value != [] && Grid(r.value, FirstLabel(ms[0].timestamp, window), window)
    ensures r.Ok? ==> Agrees(r.value, ms, FirstLabel(ms[0].timestamp, window), window)
    ensures r.Ok? ==> Belongs(ms[|ms| - 1].timestamp, r.value[|r.value| - 1].boundary, FirstLabel(ms[0].timestamp, window), window)
    ensures r.Ok? ==> forall j :: 0 <= j < |ms| ==> ms[j].timestamp <= r.value[|r.value| - 1].boundary
    ensures r.Ok? ==> TotalCount(r.value) == |ms|
  {
    if ms == [] {
      return Err(EmptyInput);
    }
    var first := FirstLabel(ms[0].timestamp, window);
    var timeline, current, batch := Windows(ms, first, window);
    CloseLast(timeline, current, batch, ms, first, window);
    r := Ok(timeline + [Timepoint(current, batch)]);
  }

  /** `parse_chat`: the accepted messages of all files, sorted by time, cut
      into windows; `messages` is the sorted list the windows are built from. */
  method ParseChat(files: seq<ChatFile>, cfg: Config, ext: Externals, window: int)
    returns (r: Result<seq<Window>>, messages: seq<Message>)
    requires window > 0
    ensures Ingested(files, cfg, ext).Err? ==> r == Err(Ingested(files, cfg, ext).error)
    ensures Ingested(files, cfg, ext).Ok? ==>
      SortedByTime(messages) && multiset(messages) == multiset(Ingested(files, cfg, ext).value)
    ensures Ingested(files, cfg, ext) == Ok([]) ==> r == Err(EmptyInput)
    ensures Ingested(files, cfg, ext).Ok? && Ingested(files, cfg, ext).value != [] ==> r.Ok?
    ensures r.Ok? ==> messages != [] && r.value != []
    ensures r.Ok? ==> Grid(r.value, FirstLabel(messages[0].timestamp, window), window)
    ensures r.Ok? ==> Agrees(r.value, messages, FirstLabel(messages[0].timestamp, window), window)
    ensures r.Ok? ==> Belongs(messages[|messages| - 1].timestamp, r.value[|r.value| - 1].boundary, FirstLabel(messages[0].timestamp, window), window)
    ensures r.Ok? ==> forall j :: 0 <= j < |messages| ==> messages[j].timestamp <= r.value[|r.value| - 1].boundary
    ensures r.Ok? ==> TotalCount(r.value) == |messages|
  {
    var loaded := Ingest(files, cfg, ext);
    if loaded.Err? {
      return Err(loaded.error), [];
    }
    messages := SortByTime(loaded.value);
    assert |messages| == |multiset(messages)| == |multiset(loaded.value)| == |loaded.value|;
    r := BuildTimeline(messages, window);
  }

  // ---------------------------------------------------------------------
  // Properties of the grid

  lemma {:induction false} GridSpacing(tl: seq<Window>, first: int, window: int, i: nat, j: nat)
    requires window > 0 && Grid(tl, first, window)
    requires i < j < |tl|
    ensures tl[i].boundary + window <= tl[j].boundary
    decreases j - i
  {
    if i + 1 < j {
      GridSpacing(tl, first, window, i, j - 1);
    }
  }

  /** Every timestamp up to the last boundary falls in exactly one window, the
      one with the smallest boundary not below it; gap windows are empty. */
  lemma OneWindowPerMessage(tl: seq<Window>, first: int, window: int, ts: int)
    requires window > 0 && tl != [] && Grid(tl, first, window)
    requires ts <= tl[|tl| - 1].boundary
    ensures exists k :: 0 <= k < |tl| && Belongs(ts, tl[k].boundary, first, window)
    ensures forall k :: 0 <= k < |tl| && Belongs(ts, tl[k].boundary, first, window) ==>
      ts <= tl[k].boundary && (forall j :: 0 <= j < k ==> tl[j].boundary < ts)
  {
    var k := 0;
    while tl[k].boundary < ts
      invariant 0 <= k < |tl|
      invariant forall j :: 0 <= j < k ==> tl[j].boundary < ts
      decreases |tl| - k
    {
      k := k + 1;
    }
    if k > 0 {
      assert tl[k].boundary == tl[k - 1].boundary + window;
    }
    assert Belongs(ts, tl[k].boundary, first, window);
    forall k' | 0 <= k' < |tl| && Belongs(ts, tl[k'].boundary, first, window)
      ensures forall j :: 0 <= j < k' ==> tl[j].boundary < ts
    {
      forall j | 0 <= j < k' ensures tl[j].boundary < ts {
        GridSpacing(tl, first, window, j, k');
        if k' > 0 { GridSpacing(tl, first, window, 0, k'); }
      }
    }
  }

  /** A window none of whose messages belongs to it is an empty gap window. */
  lemma GapWindow(tl: seq<Window>, ms: seq<Message>, first: int, window: int, k: nat)
    requires Agrees(tl, ms, first, window) && k < |tl|
    requires forall j :: 0 <= j < |ms| ==> !Belongs(ms[j].timestamp, tl[k].boundary, first, window)
    ensures tl[k].count == 0 && tl[k].counts == map[]
  {
    BucketEmpty(ms, tl[k].boundary, first, window);
  }
}
