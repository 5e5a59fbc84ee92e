/** The management projection: a snapshot, a bounded log of updates, and subscribers that follow it. */
module AdminEvents {
  import opened Bytes
  import opened Options

  type Json = string
  type Topics = map<string, Json>

  const HISTORY_LIMIT: nat := 256
  const U64: nat := 0x1_0000_0000_0000_0000

  datatype Kind = SnapshotKind | UpdateKind
  datatype Update = Update(epoch: string, revision: nat, kind: Kind, data: Topics)

  // ---------- Cursors ----------

  function DigitChar(d: nat): char
    requires d < 10
  {
    ('0' as int + d) as char
  }

  function DigitValue(c: char): (d: Option<nat>)
    ensures d.Some? ==> d.value < 10
  {
    if '0' <= c <= '9' then Some(c as int - '0' as int) else None
  }

  function Spell(ds: seq<nat>): (r: string)
    requires forall i :: 0 <= i < |ds| ==> ds[i] < 10
    ensures |r| == |ds| && forall i :: 0 <= i < |ds| ==> r[i] == DigitChar(ds[i])
  {
    if ds == [] then [] else Spell(ds[..|ds| - 1]) + [DigitChar(ds[|ds| - 1])]
  }

  /** The identifier of an event: its epoch and revision. */
  function CursorText(epoch: string, revision: nat): string { epoch + [':'] + Spell(Digits(revision)) }

  function ReadDigits(s: string): Option<seq<nat>> {
    if s == [] then Some([])
    else
      match (ReadDigits(s[..|s| - 1]), DigitValue(s[|s| - 1]))
      case (Some(front), Some(d)) => Some(front + [d])
      case _ => None
  }

  /** A 64-bit number: decimal digits, after an optional plus sign. */
  function ParseU64(s: string): Option<nat> {
    var digits := if s != [] && s[0] == '+' then s[1..] else s;
    if digits == [] then None
    else
      match ReadDigits(digits)
      case None => None
      case Some(ds) => if Value(ds) < U64 then Some(Value(ds)) else None
  }

  /** Where the last colon is; the length of the text if there is none. */
  function LastColon(s: string): (k: nat)
    ensures k <= |s| && (k < |s| ==> s[k] == ':')
    ensures forall i :: (if k < |s| then k else -1) < i < |s| ==> s[i] != ':'
  {
    if s == [] then 0
    else if s[|s| - 1] == ':' then |s| - 1
    else
      var k := LastColon(s[..|s| - 1]);
      if k < |s| - 1 then k else |s|
  }

  function ParseCursor(cursor: Option<string>): Option<(string, nat)> {
    match cursor
    case None => None
    case Some(text) =>
      var k := LastColon(text);
      if k == |text| then None
      else
        match ParseU64(text[k + 1..])
        case None => None
        case Some(revision) => Some((text[..k], revision))
  }

  lemma DigitReads(d: nat)
    requires d < 10
    ensures DigitValue(DigitChar(d)) == Some(d) && DigitChar(d) != ':' && DigitChar(d) != '+'
  {}

  lemma {:induction false} ReadSpelled(ds: seq<nat>)
    requires forall i :: 0 <= i < |ds| ==> ds[i] < 10
    ensures ReadDigits(Spell(ds)) == Some(ds)
  {
    hide DigitValue, DigitChar;
    if ds != [] {
      var front, d, s := ds[..|ds| - 1], ds[|ds| - 1], Spell(ds);
      ReadSpelled(front);
      DigitReads(d);
      assert s == Spell(front) + [DigitChar(d)];
      assert s[..|s| - 1] == Spell(front) && s[|s| - 1] == DigitChar(d);
      assert ds == front + [d];
    }
  }

  lemma SpelledPlainly(ds: seq<nat>)
    requires forall i :: 0 <= i < |ds| ==> ds[i] < 10
    ensures forall i :: 0 <= i < |ds| ==> Spell(ds)[i] != ':' && Spell(ds)[i] != '+'
  {
    hide DigitValue, DigitChar;
    forall i | 0 <= i < |ds| ensures Spell(ds)[i] != ':' && Spell(ds)[i] != '+' {
      DigitReads(ds[i]);
    }
  }

  lemma NumberReads(revision: nat)
    requires revision < U64
    ensures var number := Spell(Digits(revision));
            ParseU64(number) == Some(revision) && forall i :: 0 <= i < |number| ==> number[i] != ':'
  {
    hide Digits, Value, Spell, ReadDigits;
    ReadSpelled(Digits(revision));
    SpelledPlainly(Digits(revision));
    ValueOfDigits(revision);
  }

  lemma {:induction false} ColonBefore(front: string, number: string)
    requires forall i :: 0 <= i < |number| ==> number[i] != ':'
    ensures LastColon(front + [':'] + number) == |front|
  {
    var text := front + [':'] + number;
    if number == [] {
      assert text == front + [':'];
    } else {
      assert text[..|text| - 1] == front + [':'] + number[..|number| - 1];
      ColonBefore(front, number[..|number| - 1]);
    }
  }

  /** A cursor that was issued is understood again. */
  lemma CursorReads(epoch: string, revision: nat)
    requires revision < U64
    ensures ParseCursor(Some(CursorText(epoch, revision))) == Some((epoch, revision))
  {
    hide Digits, Spell, ParseU64, LastColon;
    var number, text := Spell(Digits(revision)), CursorText(epoch, revision);
    NumberReads(revision);
    ColonBefore(epoch, number);
    assert text[|epoch| + 1..] == number && text[..|epoch|] == epoch;
  }

  predicate AllDigits(s: string) { forall i :: 0 <= i < |s| ==> '0' <= s[i] <= '9' }

  function Decimal(s: string): nat
    requires AllDigits(s)
  {
    if s == [] then 0 else 10 * Decimal(s[..|s| - 1]) + (s[|s| - 1] as int - '0' as int)
  }

  /** A decimal number of 64 bits, with or without a plus sign. */
  predicate IsNumber(s: string, n: nat) {
    var digits := if s != [] && s[0] == '+' then s[1..] else s;
    digits != [] && AllDigits(digits) && Decimal(digits) == n < 0x1_0000_0000_0000_0000
  }

  lemma {:induction false} DigitsMean(s: string)
    ensures ReadDigits(s).Some? <==> AllDigits(s)
    ensures ReadDigits(s).Some? ==> Value(ReadDigits(s).value) == Decimal(s)
  {
    if s != [] {
      var front := s[..|s| - 1];
      DigitsMean(front);
      if AllDigits(s) {
        assert forall i :: 0 <= i < |front| ==> front[i] == s[i];
      }
      if ReadDigits(s).Some? {
        assert ReadDigits(s).value[..|s| - 1] == ReadDigits(front).value by { ReadLength(front); }
        assert forall i :: 0 <= i < |s| ==> s[i] == if i < |front| then front[i] else s[|s| - 1];
      }
    }
  }

  lemma {:induction false} ReadLength(s: string)
    ensures ReadDigits(s).Some? ==> |ReadDigits(s).value| == |s|
  {
    if s != [] {
      ReadLength(s[..|s| - 1]);
    }
  }

  lemma NumberMeans(s: string, n: nat)
    ensures ParseU64(s) == Some(n) <==> IsNumber(s, n)
  {
    hide Value, Decimal, ReadDigits;
    DigitsMean(s);
    if s != [] {
      DigitsMean(s[1..]);
    }
  }

  /** A text is understood as a cursor exactly if it is an epoch, a colon and a number; the epoch may hold colons
      too. */
  lemma CursorMeans(text: string, epoch: string, revision: nat)
    ensures ParseCursor(Some(text)) == Some((epoch, revision))
            <==> |epoch| < |text| && text[..|epoch|] == epoch && text[|epoch|] == ':'
                 && IsNumber(text[|epoch| + 1..], revision)
  {
    hide ParseU64, LastColon, IsNumber;
    var k := LastColon(text);
    if k < |text| {
      NumberMeans(text[k + 1..], revision);
    }
    if |epoch| < |text| && text[..|epoch|] == epoch && text[|epoch|] == ':' {
      var number := text[|epoch| + 1..];
      assert text == epoch + [':'] + number;
      if IsNumber(number, revision) {
        NoColon(number, revision);
        ColonBefore(epoch, number);
      }
    }
  }

  lemma NoColon(s: string, n: nat)
    requires IsNumber(s, n)
    ensures forall i :: 0 <= i < |s| ==> s[i] != ':'
  {
    if s[0] == '+' {
      assert forall i :: 1 <= i < |s| ==> s[i] == s[1..][i - 1];
    }
  }

  // ---------- The projection ----------

  datatype Projection = Projection(
    epoch: string, revision: nat, initialized: bool, data: Topics, history: seq<Update>)

  function Changes(data: Topics, values: Topics): Topics {
    map k | k in values && !(k in data && data[k] == values[k]) :: values[k]
  }

  function LastUpdates(history: seq<Update>): seq<Update> {
    if |history| <= HISTORY_LIMIT then history else history[|history| - HISTORY_LIMIT..]
  }

  function Publish(p: Projection, values: Topics): Projection {
    var changes := Changes(p.data, values);
    if changes == map[] && p.initialized then p
    else
      var update := Update(p.epoch, p.revision + 1, UpdateKind, changes);
      Projection(p.epoch, p.revision + 1, true, p.data + changes, LastUpdates(p.history + [update]))
  }

  function Later(history: seq<Update>, revision: nat): seq<Update> {
    if history == [] then []
    else
      var (front, e) := (Later(history[..|history| - 1], revision), history[|history| - 1]);
      if e.revision > revision then front + [e] else front
  }

  /** Whether the log still has every update after a cursor. */
  predicate Covers(p: Projection, cursor: Option<string>) {
    match ParseCursor(cursor)
    case None => false
    case Some((epoch, revision)) =>
      && epoch == p.epoch && revision <= p.revision
      && p.history != [] && revision >= (if p.history[0].revision > 0 then p.history[0].revision - 1 else 0)
  }

  function After(p: Projection, cursor: Option<string>): seq<Update> {
    if Covers(p, cursor) then Later(p.history, ParseCursor(cursor).value.1)
    else [Update(p.epoch, p.revision, SnapshotKind, p.data)]
  }

  // ---------- The log ----------

  function Receive(held: Topics, e: Update): Topics {
    match e.kind
    case SnapshotKind => e.data
    case UpdateKind => held + e.data
  }

  /** What a client holds after some events: a snapshot replaces, an update is merged. */
  function ReceiveAll(held: Topics, es: seq<Update>): Topics {
    if es == [] then held else Receive(ReceiveAll(held, es[..|es| - 1]), es[|es| - 1])
  }

  lemma {:induction false} ReceiveAppend(held: Topics, a: seq<Update>, b: seq<Update>)
    ensures ReceiveAll(held, a + b) == ReceiveAll(ReceiveAll(held, a), b)
  {
    if b == [] {
      assert a + b == a;
    } else {
      assert (a + b)[..|a + b| - 1] == a + b[..|b| - 1];
      ReceiveAppend(held, a, b[..|b| - 1]);
    }
  }

  /** The whole projection as it was at a revision. */
  function Version(log: seq<Update>, revision: nat): Topics
    requires revision <= |log|
  {
    ReceiveAll(map[], log[..revision])
  }

  /** All updates ever published, the bounded log their end, and the data what they add up to. */
  predicate IsLogOf(p: Projection, log: seq<Update>) {
    && |log| == p.revision && (p.initialized <==> p.revision > 0)
    && p.history == LastUpdates(log) && p.data == ReceiveAll(map[], log)
    && forall i :: 0 <= i < |log| ==> IsUpdate(log[i], p.epoch, i + 1)
  }

  predicate IsUpdate(e: Update, epoch: string, revision: nat) {
    e.epoch == epoch && e.revision == revision && e.kind == UpdateKind
  }

  function Logged(p: Projection, log: seq<Update>, values: Topics): seq<Update> {
    var changes := Changes(p.data, values);
    if changes == map[] && p.initialized then log else log + [Update(p.epoch, p.revision + 1, UpdateKind, changes)]
  }

  lemma PublishKeepsLog(p: Projection, log: seq<Update>, values: Topics)
    requires IsLogOf(p, log)
    ensures IsLogOf(Publish(p, values), Logged(p, log, values))
  {
    hide Changes;
    var longer := Logged(p, log, values);
    if longer != log {
      assert longer[..|log|] == log;
      TrimTwice(log, longer[|log|]);
    }
  }

  /** A published value that the projection does not have yet. */
  predicate IsNew(data: Topics, values: Topics, topic: string) {
    topic in values && !(topic in data && data[topic] == values[topic])
  }

  /** What there is to tell: anything new, or that there is a projection at all. */
  predicate IsNews(p: Projection, values: Topics) { !p.initialized || exists k :: k in values && IsNew(p.data, values, k) }

  /** The topics that are new, with their values, under the next revision. */
  predicate Tells(e: Update, p: Projection, values: Topics) {
    && IsUpdate(e, p.epoch, p.revision + 1)
    && (forall k :: k in e.data ==> IsNew(p.data, values, k) && e.data[k] == values[k])
    && (forall k :: k in values && IsNew(p.data, values, k) ==> k in e.data)
  }

  /** Published values are merged into the projection; if they are news they are told under the next revision,
      in one update of just what is new, and otherwise nothing happens. */
  predicate IsPublished(p: Projection, log: seq<Update>, values: Topics, q: Projection, longer: seq<Update>) {
    && q.data == p.data + values && q.epoch == p.epoch && q.initialized
    && (if IsNews(p, values)
        then q.revision == p.revision + 1 && |longer| == |log| + 1 && longer[..|log|] == log
             && Tells(longer[|log|], p, values)
        else q == p && longer == log)
  }

  lemma PublishMeans(p: Projection, log: seq<Update>, values: Topics)
    ensures IsPublished(p, log, values, Publish(p, values), Logged(p, log, values))
  {
    var changes := Changes(p.data, values);
    assert forall k :: k in changes <==> k in values && IsNew(p.data, values, k);
    assert p.data + changes == p.data + values;
    if IsNews(p, values) && p.initialized {
      var k :| k in values && IsNew(p.data, values, k);
      assert k in changes;
    }
  }

  /** The bounded log holds the last 256 updates. */
  lemma HistoryMeans(p: Projection, log: seq<Update>)
    requires IsLogOf(p, log)
    ensures |p.history| == (if |log| <= 256 then |log| else 256) && p.history == log[|log| - |p.history|..]
  {
    hide ReceiveAll;
  }

  /** The rest of the log is handed out exactly for a cursor of this epoch that missed 256 updates at most; any
      other gets a snapshot. */
  lemma CoversExactly(p: Projection, log: seq<Update>, cursor: Option<string>)
    requires IsLogOf(p, log)
    ensures Covers(p, cursor)
            <==> p.initialized && OwnRevision(cursor, p.epoch).Some?
                 && p.revision - 256 <= OwnRevision(cursor, p.epoch).value <= p.revision
  {
    hide ParseCursor, ReceiveAll, LastUpdates;
    HistoryMeans(p, log);
    if p.initialized {
      assert p.history[0] == log[|log| - |p.history|] && IsUpdate(p.history[0], p.epoch, |log| - |p.history| + 1);
    }
  }

  /** Trimming after every update keeps what trimming once would keep. */
  lemma TrimTwice(log: seq<Update>, e: Update)
    ensures LastUpdates(LastUpdates(log) + [e]) == LastUpdates(log + [e])
  {}

  /** From inside the window, what comes later is exactly the rest of the log. */
  lemma {:induction false} LaterIsRest(history: seq<Update>, first: nat, revision: nat)
    requires forall i :: 0 <= i < |history| ==> history[i].revision == first + i
    requires first <= revision + 1 <= first + |history|
    ensures Later(history, revision) == history[revision + 1 - first..]
  {
    if history != [] {
      var front, e := history[..|history| - 1], history[|history| - 1];
      if revision + 1 == first + |history| {
        NothingLater(history, revision);
      } else {
        LaterIsRest(front, first, revision);
        assert history[revision + 1 - first..] == front[revision + 1 - first..] + [e];
      }
    }
  }

  lemma {:induction false} NothingLater(history: seq<Update>, revision: nat)
    requires forall i :: 0 <= i < |history| ==> history[i].revision <= revision
    ensures Later(history, revision) == []
  {
    if history != [] {
      NothingLater(history[..|history| - 1], revision);
    }
  }

  /** The revision of a cursor of this epoch. */
  function OwnRevision(cursor: Option<string>, epoch: string): Option<nat> {
    match ParseCursor(cursor)
    case Some((e, revision)) => if e == epoch then Some(revision) else None
    case None => None
  }

  function SnapshotAt(epoch: string, log: seq<Update>, revision: nat): Update
    requires revision <= |log|
  {
    Update(epoch, revision, SnapshotKind, Version(log, revision))
  }

  /** What `after` hands out: every update since the cursor, if the log still has them all, or one snapshot
      of the present. */
  lemma AfterAnswers(p: Projection, cursor: Option<string>, log: seq<Update>)
    requires IsLogOf(p, log)
    ensures Covers(p, cursor) ==>
              var revision := OwnRevision(cursor, p.epoch);
              revision.Some? && revision.value <= |log| && After(p, cursor) == log[revision.value..]
    ensures !Covers(p, cursor) ==> After(p, cursor) == [SnapshotAt(p.epoch, log, p.revision)]
  {
    hide ParseCursor, ReceiveAll, LastUpdates;
    assert log[..p.revision] == log;
    if Covers(p, cursor) {
      RestCovered(p, log, ParseCursor(cursor).value.1);
    }
  }

  lemma RestCovered(p: Projection, log: seq<Update>, revision: nat)
    requires IsLogOf(p, log) && p.history != [] && p.history[0].revision <= revision + 1 && revision <= p.revision
    ensures Later(p.history, revision) == log[revision..]
  {
    hide ReceiveAll, Later;
    var dropped := |log| - |p.history|;
    assert forall i :: 0 <= i < |p.history| ==> p.history[i] == log[dropped + i];
    assert forall i :: 0 <= i < |log| ==> IsUpdate(log[i], p.epoch, i + 1);
    LaterIsRest(p.history, dropped + 1, revision);
  }

  /** `after` is empty exactly when the cursor is current, however much of the log was trimmed. */
  lemma EmptyWhenCurrent(p: Projection, cursor: Option<string>, log: seq<Update>)
    requires IsLogOf(p, log) && p.initialized
    ensures After(p, cursor) == [] <==> ParseCursor(cursor) == Some((p.epoch, p.revision))
  {
    hide ParseCursor, Later;
    AfterAnswers(p, cursor, log);
    assert p.history[0] == log[|log| - |p.history|] && IsUpdate(p.history[0], p.epoch, |log| - |p.history| + 1);
  }

  // ---------- Subscribers ----------

  /** A subscriber's position and queue, and what its client has put together from the events. */
  datatype Subscriber = Subscriber(cursor: Option<string>, queue: seq<Update>, held: Topics)

  datatype System = System(projection: Projection, log: seq<Update>, subscriber: Subscriber)

  /** One turn of the subscriber's loop: deliver what is queued, or else ask what came after. */
  function Turn(s: Subscriber, p: Projection): Subscriber {
    if s.queue == [] then s.(queue := After(p, s.cursor))
    else
      var e := s.queue[0];
      Subscriber(Some(CursorText(e.epoch, e.revision)), s.queue[1..], Receive(s.held, e))
  }

  /** A client that connects again names the last event it got, and keeps what it holds. */
  datatype Step = Published(values: Topics) | Turned | Reconnected

  function Next(s: System, step: Step): System {
    match step
    case Published(values) => System(Publish(s.projection, values), Logged(s.projection, s.log, values), s.subscriber)
    case Turned => s.(subscriber := Turn(s.subscriber, s.projection))
    case Reconnected => s.(subscriber := s.subscriber.(queue := []))
  }

  function Run(s: System, steps: seq<Step>): System {
    if steps == [] then s else Next(Run(s, steps[..|steps| - 1]), steps[|steps| - 1])
  }

  lemma {:induction false} RunCons(s: System, step: Step, steps: seq<Step>)
    ensures Run(s, [step] + steps) == Run(Next(s, step), steps)
  {
    hide Next;
    if steps == [] {
      assert [step] + steps == [step] && [step][..0] == [];
      assert Run(s, []) == s;
    } else {
      var all := [step] + steps;
      assert all[..|all| - 1] == [step] + steps[..|steps| - 1];
      RunCons(s, step, steps[..|steps| - 1]);
    }
  }

  /** All values that were published, later ones before earlier ones. */
  function Merged(data: Topics, steps: seq<Step>): Topics {
    if steps == [] then data
    else
      var (earlier, last) := (Merged(data, steps[..|steps| - 1]), steps[|steps| - 1]);
      if last.Published? then earlier + last.values else earlier
  }

  /** The projection is what was published: in every run, each topic has the value published for it last. */
  lemma {:induction false} DataIsPublished(s: System, steps: seq<Step>)
    ensures Run(s, steps).projection.data == Merged(s.projection.data, steps)
  {
    hide Turn, Publish, Logged, IsNews;
    if steps != [] {
      DataIsPublished(s, steps[..|steps| - 1]);
      var t, step := Run(s, steps[..|steps| - 1]), steps[|steps| - 1];
      if step.Published? {
        PublishMeans(t.projection, t.log, step.values);
      }
    }
  }

  /** What is queued continues the log from the cursor. */
  predicate IsRest(s: System) {
    var revision := OwnRevision(s.subscriber.cursor, s.projection.epoch);
    s.subscriber.queue != [] && revision.Some? && revision.value <= |s.log|
    && s.subscriber.queue <= s.log[revision.value..]
  }

  predicate IsSnapshot(s: System) {
    |s.subscriber.queue| == 1
    && var e := s.subscriber.queue[0]; e.revision <= |s.log| && e == SnapshotAt(s.projection.epoch, s.log, e.revision)
  }

  predicate Queued(s: System) { s.subscriber.queue == [] || IsRest(s) || IsSnapshot(s) }

  lemma PublishAppends(s: System, values: Topics)
    requires IsLogOf(s.projection, s.log) && Queued(s)
    ensures var t := Next(s, Published(values));
            && IsLogOf(t.projection, t.log) && Queued(t) && (IsRest(t) ==> IsRest(s))
            && t.projection.epoch == s.projection.epoch && (s.projection.initialized ==> t.projection.initialized)
            && t.subscriber == s.subscriber
            && (t == s || (|t.log| == |s.log| + 1 && t.log[..|s.log|] == s.log))
    ensures forall r :: 0 <= r <= |s.log| ==> Version(Next(s, Published(values)).log, r) == Version(s.log, r)
  {
    hide ParseCursor, Changes, LastUpdates;
    PublishKeepsLog(s.projection, s.log, values);
    var t := Next(s, Published(values));
    assert forall r :: 0 <= r <= |s.log| ==> t.log[..r] == s.log[..r];
    if IsRest(t) {
      var r := OwnRevision(t.subscriber.cursor, t.projection.epoch).value;
      assert t.subscriber.queue[0] == t.log[r..][0] && IsUpdate(t.log[r], t.projection.epoch, r + 1);
    }
    if IsRest(s) {
      var r := OwnRevision(s.subscriber.cursor, s.projection.epoch).value;
      assert s.log[r..] <= t.log[r..];
    }
  }

  lemma RefillQueues(s: System)
    requires IsLogOf(s.projection, s.log) && s.subscriber.queue == []
    ensures var t := Next(s, Turned);
            && t.projection == s.projection && t.log == s.log
            && t.subscriber.cursor == s.subscriber.cursor && t.subscriber.held == s.subscriber.held
            && Queued(t) && (IsRest(t) ==> Covers(s.projection, s.subscriber.cursor))
  {
    hide ParseCursor, After, Covers, Version;
    AfterAnswers(s.projection, s.subscriber.cursor, s.log);
  }

  /** Delivering an update moves the cursor to it; delivering a snapshot moves the cursor to the revision
      that the snapshot is of. */
  lemma DeliverStep(s: System)
    requires IsLogOf(s.projection, s.log) && Queued(s) && s.subscriber.queue != [] && |s.log| < U64
    ensures var (e, t) := (s.subscriber.queue[0], Next(s, Turned));
            && t == s.(subscriber := Subscriber(t.subscriber.cursor, s.subscriber.queue[1..], Receive(s.subscriber.held, e)))
            && OwnRevision(t.subscriber.cursor, s.projection.epoch) == Some(e.revision) && e.revision <= |s.log|
            && Queued(t)
            && (if IsRest(s) then
                  var r := OwnRevision(s.subscriber.cursor, s.projection.epoch).value;
                  r < |s.log| && e == s.log[r] && e.revision == r + 1
                else e == SnapshotAt(s.projection.epoch, s.log, e.revision) && t.subscriber.queue == [])
  {
    hide ParseCursor, CursorText, Version, LastUpdates;
    var sub, epoch := s.subscriber, s.projection.epoch;
    var e := sub.queue[0];
    if IsRest(s) {
      var r := OwnRevision(sub.cursor, epoch).value;
      assert e == s.log[r..][0];
      assert IsUpdate(s.log[r], epoch, r + 1);
      assert s.log[r..][1..] == s.log[r + 1..];
    }
    CursorReads(epoch, e.revision);
  }

  lemma VersionStep(log: seq<Update>, r: nat)
    requires r < |log|
    ensures Version(log, r + 1) == Receive(Version(log, r), log[r])
  {
    assert log[..r + 1][..r] == log[..r];
  }

  // ---------- Clients that start from scratch ----------

  /** The client holds the projection as it was at its cursor. */
  predicate HoldsItsVersion(s: System) {
    var revision := OwnRevision(s.subscriber.cursor, s.projection.epoch);
    revision.Some? ==> revision.value <= |s.log| && s.subscriber.held == Version(s.log, revision.value)
  }

  predicate Follows(s: System) {
    IsLogOf(s.projection, s.log) && s.projection.initialized && HoldsItsVersion(s) && Queued(s)
  }

  lemma FollowsStep(s: System, step: Step)
    requires Follows(s) && |s.log| < U64
    ensures Follows(Next(s, step))
  {
    hide OwnRevision, IsLogOf, Version, IsRest, IsSnapshot, SnapshotAt, Turn, Publish, Logged;
    match step
    case Published(values) => PublishAppends(s, values);
    case Turned =>
      if s.subscriber.queue == [] {
        RefillQueues(s);
      } else {
        DeliverStep(s);
        DeliveredVersion(s);
      }
    case Reconnected =>
  }

  lemma DeliveredVersion(s: System)
    requires Follows(s) && s.subscriber.queue != [] && |s.log| < U64
    ensures Receive(s.subscriber.held, s.subscriber.queue[0]) == Version(s.log, s.subscriber.queue[0].revision)
  {
    hide ParseCursor, Version;
    DeliverStep(s);
    if IsRest(s) {
      VersionStep(s.log, OwnRevision(s.subscriber.cursor, s.projection.epoch).value);
    }
  }

  lemma {:induction false} LogGrows(s: System, steps: seq<Step>, k: nat)
    requires k <= |steps|
    ensures |Run(s, steps[..k]).log| <= |Run(s, steps).log|
  {
    hide Turn, Publish, Changes;
    if k < |steps| {
      assert steps[..|steps| - 1][..k] == steps[..k];
      LogGrows(s, steps[..|steps| - 1], k);
    } else {
      assert steps[..k] == steps;
    }
  }

  lemma {:induction false} RunFollows(s: System, steps: seq<Step>)
    requires Follows(s) && |Run(s, steps).log| < U64
    ensures Follows(Run(s, steps))
  {
    hide Next, Follows;
    if steps != [] {
      LogGrows(s, steps, |steps| - 1);
      RunFollows(s, steps[..|steps| - 1]);
      FollowsStep(Run(s, steps[..|steps| - 1]), steps[|steps| - 1]);
    }
  }

  /** A client that starts without a cursor of this epoch holds, in every interleaving of publications,
      deliveries and reconnections, exactly the projection as it was at its cursor. */
  lemma ClientsFollow(s: System, steps: seq<Step>)
    requires IsLogOf(s.projection, s.log) && s.projection.initialized
    requires OwnRevision(s.subscriber.cursor, s.projection.epoch) == None && s.subscriber.queue == []
    requires |Run(s, steps).log| < U64
    ensures HoldsItsVersion(Run(s, steps)) && CurrentIfIdle(Run(s, steps))
  {
    hide OwnRevision, IsLogOf, Run, CurrentIfIdle;
    RunFollows(s, steps);
    IdleIsCurrent(Run(s, steps));
  }

  /** A subscriber that asks and finds nothing. */
  predicate Idle(s: System) { s.subscriber.queue == [] && After(s.projection, s.subscriber.cursor) == [] }

  /** If nothing is left to deliver, the client holds the present projection. */
  predicate CurrentIfIdle(s: System) { Idle(s) ==> s.subscriber.held == s.projection.data }

  lemma IdleIsCurrent(s: System)
    requires Follows(s)
    ensures CurrentIfIdle(s)
  {
    hide ParseCursor, After;
    EmptyWhenCurrent(s.projection, s.subscriber.cursor, s.log);
    assert s.log[..|s.log|] == s.log;
  }

  // ---------- Clients that start with any cursor ----------

  /** The cursor is not of this epoch, or not ahead of it, and the updates it still gets complete what the
      client holds. */
  predicate Compatible(s: System) {
    var (p, sub) := (s.projection, s.subscriber);
    match OwnRevision(sub.cursor, p.epoch)
    case None => true
    case Some(revision) =>
      revision <= p.revision
      && (Covers(p, sub.cursor) ==> ReceiveAll(sub.held, Later(p.history, revision)) == p.data)
  }

  /** In no continuation is the client idle and wrong. */
  ghost predicate AlwaysCurrent(s: System) {
    forall steps :: |Run(s, steps).log| < U64 ==> CurrentIfIdle(Run(s, steps))
  }

  /** The updates from the cursor on complete what the client holds. */
  predicate Completes(s: System, revision: nat)
    requires revision <= |s.log|
  {
    ReceiveAll(s.subscriber.held, s.log[revision..]) == s.projection.data
  }

  predicate Sound(s: System) {
    && IsLogOf(s.projection, s.log) && s.projection.initialized && Queued(s)
    && var revision := OwnRevision(s.subscriber.cursor, s.projection.epoch);
       revision.Some? ==>
         revision.value <= |s.log|
         && (Covers(s.projection, s.subscriber.cursor) || IsRest(s) ==> Completes(s, revision.value))
  }

  lemma CompatibleIsSound(s: System)
    requires IsLogOf(s.projection, s.log) && s.projection.initialized && s.subscriber.queue == []
    ensures Compatible(s) <==> Sound(s)
  {
    hide ParseCursor, LastUpdates;
    AfterAnswers(s.projection, s.subscriber.cursor, s.log);
  }

  /** The window of the log only moves on. */
  lemma CoversBefore(p: Projection, log: seq<Update>, values: Topics, cursor: Option<string>)
    requires IsLogOf(p, log) && p.initialized && Covers(Publish(p, values), cursor)
    requires OwnRevision(cursor, p.epoch).Some? && OwnRevision(cursor, p.epoch).value <= |log|
    ensures Covers(p, cursor)
  {
    hide ParseCursor, Changes;
    var q, longer := Publish(p, values), Logged(p, log, values);
    PublishKeepsLog(p, log, values);
    assert IsUpdate(p.history[0], p.epoch, |log| - |p.history| + 1);
    assert IsUpdate(q.history[0], p.epoch, |longer| - |q.history| + 1);
  }

  lemma PublishSound(s: System, values: Topics)
    requires Sound(s)
    ensures Sound(Next(s, Published(values)))
  {
    hide ParseCursor, Changes, LastUpdates, Covers, IsRest, IsSnapshot;
    PublishAppends(s, values);
    var t := Next(s, Published(values));
    var revision := OwnRevision(s.subscriber.cursor, s.projection.epoch);
    if revision.Some? && t != s {
      var r := revision.value;
      if Covers(t.projection, t.subscriber.cursor) {
        CoversBefore(s.projection, s.log, values, s.subscriber.cursor);
      }
      assert t.log[r..][..|t.log| - r - 1] == s.log[r..];
    }
  }

  lemma ReceiveCons(held: Topics, log: seq<Update>, r: nat)
    requires r < |log|
    ensures ReceiveAll(held, log[r..]) == ReceiveAll(Receive(held, log[r]), log[r + 1..])
  {
    assert [log[r]][..0] == [];
    assert ReceiveAll(held, [log[r]]) == Receive(ReceiveAll(held, []), log[r]);
    assert log[r..] == [log[r]] + log[r + 1..];
    ReceiveAppend(held, [log[r]], log[r + 1..]);
  }

  lemma VersionCompletes(log: seq<Update>, r: nat)
    requires r <= |log|
    ensures ReceiveAll(Version(log, r), log[r..]) == ReceiveAll(map[], log)
  {
    assert log == log[..r] + log[r..];
    ReceiveAppend(map[], log[..r], log[r..]);
  }

  lemma TurnSound(s: System)
    requires Sound(s) && |s.log| < U64
    ensures Sound(Next(s, Turned))
  {
    hide ParseCursor, Covers, IsSnapshot, Turn, Version;
    if s.subscriber.queue == [] {
      RefillQueues(s);
    } else {
      DeliverStep(s);
      if IsRest(s) {
        ReceiveCons(s.subscriber.held, s.log, OwnRevision(s.subscriber.cursor, s.projection.epoch).value);
      } else {
        VersionCompletes(s.log, s.subscriber.queue[0].revision);
      }
    }
  }

  lemma {:induction false} RunSound(s: System, steps: seq<Step>)
    requires Sound(s) && |Run(s, steps).log| < U64
    ensures Sound(Run(s, steps)) && CurrentIfIdle(Run(s, steps))
  {
    hide Sound, Publish, Turn, Logged;
    if steps != [] {
      LogGrows(s, steps, |steps| - 1);
      RunSound(s, steps[..|steps| - 1]);
      var t := Run(s, steps[..|steps| - 1]);
      match steps[|steps| - 1]
      case Published(values) => PublishSound(t, values);
      case Turned => TurnSound(t);
      case Reconnected => ReconnectSound(t);
    }
    SoundIsCurrent(Run(s, steps));
  }

  lemma ReconnectSound(s: System)
    requires Sound(s)
    ensures Sound(Next(s, Reconnected))
  {
    hide ParseCursor, Covers, IsLogOf;
  }

  lemma SoundIsCurrent(s: System)
    requires Sound(s)
    ensures CurrentIfIdle(s)
  {
    hide ParseCursor, After;
    if Idle(s) {
      AfterAnswers(s.projection, s.subscriber.cursor, s.log);
      assert ReceiveAll(s.subscriber.held, []) == s.subscriber.held;
    }
  }

  /** What is queued is delivered; then the cursor is where the log ends and nothing is left. */
  lemma {:induction false} Drain(s: System, revision: nat) returns (steps: seq<Step>)
    requires IsLogOf(s.projection, s.log) && s.projection.initialized && |s.log| < U64
    requires OwnRevision(s.subscriber.cursor, s.projection.epoch) == Some(revision) && revision <= |s.log|
    requires s.subscriber.queue == s.log[revision..]
    ensures var t := Run(s, steps);
            t.log == s.log && t.projection == s.projection && Idle(t)
            && t.subscriber.held == ReceiveAll(s.subscriber.held, s.log[revision..])
    decreases |s.log| - revision
  {
    hide ParseCursor, After, LastUpdates, Turn;
    if revision == |s.log| {
      steps := [];
      EmptyWhenCurrent(s.projection, s.subscriber.cursor, s.log);
      assert ReceiveAll(s.subscriber.held, []) == s.subscriber.held;
    } else {
      assert IsRest(s);
      DeliverStep(s);
      ReceiveCons(s.subscriber.held, s.log, revision);
      assert s.log[revision..][1..] == s.log[revision + 1..];
      var rest := Drain(Next(s, Turned), revision + 1);
      steps := [Turned] + rest;
      RunCons(s, Turned, rest);
    }
  }

  /** What the client holds is not completed by what it gets. */
  lemma WrongStart(s: System) returns (steps: seq<Step>)
    requires IsLogOf(s.projection, s.log) && s.projection.initialized && s.subscriber.queue == [] && |s.log| < U64
    requires Covers(s.projection, s.subscriber.cursor) && !Compatible(s)
    ensures |Run(s, steps).log| < U64 && !CurrentIfIdle(Run(s, steps))
  {
    hide ParseCursor, LastUpdates, IsUpdate;
    AfterAnswers(s.projection, s.subscriber.cursor, s.log);
    var revision := OwnRevision(s.subscriber.cursor, s.projection.epoch).value;
    var rest := Drain(Next(s, Turned), revision);
    steps := [Turned] + rest;
    RunCons(s, Turned, rest);
  }

  const TOPIC: string := "overview"

  /** A value that is longer than the one the client holds, and the one that is published. */
  function Unheard(s: System): Json {
    Longer(At(s.subscriber.held), At(s.projection.data))
  }

  function At(data: Topics): Json { if TOPIC in data then data[TOPIC] else "" }

  function Longer(a: Json, b: Json): (c: Json)
    ensures |c| > |a| && |c| > |b|
  {
    if |a| > |b| then a + [' '] else b + [' ']
  }

  lemma UnheardPublishes(s: System)
    requires IsLogOf(s.projection, s.log)
    ensures var t := Next(s, Published(map[TOPIC := Unheard(s)]));
            && IsLogOf(t.projection, t.log) && t.projection.initialized && t.projection.revision == s.projection.revision + 1
            && t.projection.epoch == s.projection.epoch && t.subscriber == s.subscriber
            && t.subscriber.held != t.projection.data
  {
    hide IsLogOf;
    var values := map[TOPIC := Unheard(s)];
    PublishKeepsLog(s.projection, s.log, values);
    assert TOPIC in Changes(s.projection.data, values);
    assert Next(s, Published(values)).projection.data[TOPIC] == Unheard(s);
  }

  /** A cursor ahead of the present is taken for current as soon as the projection reaches its revision,
      whatever the client holds, for every revision ahead. */
  lemma {:induction false} ForgedCursor(s: System, revision: nat) returns (steps: seq<Step>)
    requires IsLogOf(s.projection, s.log) && s.subscriber.queue == []
    requires OwnRevision(s.subscriber.cursor, s.projection.epoch) == Some(revision)
    requires s.projection.revision < revision < U64
    ensures |Run(s, steps).log| == revision && !CurrentIfIdle(Run(s, steps))
    decreases revision - s.projection.revision
  {
    hide ParseCursor, After, IsLogOf, Unheard;
    var step := Published(map[TOPIC := Unheard(s)]);
    var t := Next(s, step);
    UnheardPublishes(s);
    if t.projection.revision == revision {
      steps := [step];
      assert [step][..0] == [] && Run(s, []) == s;
      EmptyWhenCurrent(t.projection, t.subscriber.cursor, t.log);
      assert |t.log| == revision by {
        LogLength(t);
      }
    } else {
      var rest := ForgedCursor(t, revision);
      steps := [step] + rest;
      RunCons(s, step, rest);
    }
  }

  lemma LogLength(s: System)
    requires IsLogOf(s.projection, s.log)
    ensures |s.log| == s.projection.revision
  {}

  /** Exactly the compatible starts can never go wrong. */
  lemma ExactlyCurrent(s: System)
    requires IsLogOf(s.projection, s.log) && s.projection.initialized && s.subscriber.queue == []
    requires s.projection.revision < U64
    ensures AlwaysCurrent(s) <==> Compatible(s)
  {
    hide ParseCursor, Run, IsLogOf, Covers, CurrentIfIdle;
    LogLength(s);
    CompatibleIsSound(s);
    if Compatible(s) {
      forall steps | |Run(s, steps).log| < U64 ensures CurrentIfIdle(Run(s, steps)) {
        RunSound(s, steps);
      }
    } else {
      var revision := OwnRevision(s.subscriber.cursor, s.projection.epoch).value;
      if revision > s.projection.revision {
        OwnBelow(s.subscriber.cursor, s.projection.epoch);
        var steps := ForgedCursor(s, revision);
        assert !CurrentIfIdle(Run(s, steps));
      } else {
        var steps := WrongStart(s);
        assert !CurrentIfIdle(Run(s, steps));
      }
    }
  }

  lemma OwnBelow(cursor: Option<string>, epoch: string)
    ensures OwnRevision(cursor, epoch).Some? ==> OwnRevision(cursor, epoch).value < U64
  {}

  // ---------- The class ----------

  class Hub {
    const epoch: string
    var revision: nat
    var initialized: bool
    var data: Topics
    var history: seq<Update>
    ghost var log: seq<Update>

    function View(): Projection
      reads this
    {
      Projection(epoch, revision, initialized, data, history)
    }

    ghost predicate Valid()
      reads this
    {
      IsLogOf(View(), log)
    }

    constructor (epoch: string)
      ensures Valid() && View() == Projection(epoch, 0, false, map[], []) && log == []
    {
      this.epoch, revision, initialized, data, history, log := epoch, 0, false, map[], [], [];
    }

    /** The values are merged into the data. What is new among them, and nothing else, is logged as one update
        under the next revision; without news nothing happens but on the first call. */
    method PublishValues(values: Topics)
      requires Valid()
      modifies this
      ensures Valid() && View() == Publish(old(View()), values)
      ensures log == Logged(old(View()), old(log), values)
      ensures data == old(data) + values && initialized
      ensures revision == old(revision) + (if IsNews(old(View()), values) then 1 else 0)
      ensures if IsNews(old(View()), values)
              then |log| == |old(log)| + 1 && log[..|old(log)|] == old(log) && Tells(log[|old(log)|], old(View()), values)
              else log == old(log) && View() == old(View())
    {
      hide Changes, IsLogOf, IsNews, Tells, LastUpdates;
      PublishKeepsLog(View(), log, values);
      PublishMeans(View(), log, values);
      log := Logged(View(), log, values);
      var changes := Changes(data, values);
      if changes != map[] || !initialized {
        initialized := true;
        revision := revision + 1;
        data := data + changes;
        history := history + [Update(epoch, revision, UpdateKind, changes)];
        Trim();
      }
    }

    method Trim()
      modifies this`history
      ensures history == LastUpdates(old(history))
    {
      while |history| > HISTORY_LIMIT
        invariant LastUpdates(history) == LastUpdates(old(history))
      {
        history := history[1..];
      }
    }

    method UpdatesAfter(cursor: Option<string>) returns (es: seq<Update>)
      requires Valid()
      ensures es == After(View(), cursor)
      ensures var revision := OwnRevision(cursor, epoch);
              if Covers(View(), cursor) then revision.Some? && revision.value <= |log| && es == log[revision.value..]
              else es == [SnapshotAt(epoch, log, |log|)]
    {
      hide ParseCursor, IsLogOf, OwnRevision, SnapshotAt;
      LogLength(System(View(), log, Subscriber(cursor, [], map[])));
      AfterAnswers(View(), cursor, log);
      var parsed := ParseCursor(cursor);
      if parsed.Some? && parsed.value.0 == epoch && parsed.value.1 <= revision && history != []
         && parsed.value.1 >= (if history[0].revision > 0 then history[0].revision - 1 else 0) {
        es := [];
        for i := 0 to |history|
          invariant es == Later(history[..i], parsed.value.1)
        {
          assert history[..i + 1][..i] == history[..i];
          if history[i].revision > parsed.value.1 {
            es := es + [history[i]];
          }
        }
        assert history[..|history|] == history;
        return es;
      }
      es := [Update(epoch, revision, SnapshotKind, data)];
    }
  }

  class Subscription {
    var cursor: Option<string>
    var queue: seq<Update>
    ghost var held: Topics

    ghost function View(): Subscriber
      reads this
    {
      Subscriber(cursor, queue, held)
    }

    constructor (cursor: Option<string>, ghost held: Topics)
      ensures View() == Subscriber(cursor, [], held)
    {
      this.cursor, this.held, queue := cursor, held, [];
    }

    ghost predicate Following(hub: Hub)
      reads this, hub
    {
      Follows(System(hub.View(), hub.log, View()))
    }

    /** One round of the subscriber's loop: an event, or nothing yet. The cursor moves to the event as its
        client gets it; a client that follows the hub goes on following it, and if nothing is left it has
        the present data. */
    method Poll(hub: Hub) returns (event: Option<Update>)
      requires hub.Valid()
      modifies this
      ensures View() == Turn(old(View()), hub.View())
      ensures event == None <==> old(queue) == []
      ensures event == None ==> cursor == old(cursor) && held == old(held)
      ensures event.Some? ==>
                cursor == Some(CursorText(event.value.epoch, event.value.revision))
                && held == Receive(old(held), event.value)
      ensures old(Following(hub)) && hub.revision < U64 ==> Following(hub)
      ensures old(Following(hub)) && event == None && queue == [] ==> held == hub.data
    {
      hide Follows, IsLogOf, CursorText, After, CurrentIfIdle;
      ghost var before := System(hub.View(), hub.log, View());
      LogLength(before);
      if Follows(before) {
        IdleIsCurrent(before);
        if hub.revision < U64 {
          FollowsStep(before, Turned);
        }
      }
      if queue != [] {
        var update := queue[0];
        queue := queue[1..];
        cursor := Some(CursorText(update.epoch, update.revision));
        held := Receive(held, update);
        return Some(update);
      }
      queue := hub.UpdatesAfter(cursor);
      event := None;
      assert Follows(before) && queue == [] ==> held == hub.data by {
        NothingLeft(before);
      }
    }
  }

  lemma NothingLeft(s: System)
    ensures CurrentIfIdle(s) && s.subscriber.queue == [] && After(s.projection, s.subscriber.cursor) == [] ==>
              s.subscriber.held == s.projection.data
  {
    hide After;
  }

  /** A hub after its first publication, and a client without a cursor. */
  function Begun(epoch: string, first: Topics): System {
    var empty := Projection(epoch, 0, false, map[], []);
    System(Publish(empty, first), Logged(empty, [], first), Subscriber(None, [], map[]))
  }

  /** A client on a new hub, through any publications, rounds and reconnections: it always holds the
      projection as it was at its cursor, and the hub has what was last published of each topic. */
  method Serve(epoch: string, first: Topics, steps: seq<Step>) returns (hub: Hub, client: Subscription)
    ensures fresh(hub) && fresh(client) && hub.Valid()
    ensures var end := System(hub.View(), hub.log, client.View());
            end == Run(Begun(epoch, first), steps) && (hub.revision < U64 ==> HoldsItsVersion(end) && CurrentIfIdle(end))
    ensures hub.data == Merged(first, steps)
  {
    hide IsLogOf, Publish, Logged, Turn, HoldsItsVersion, CurrentIfIdle, OwnRevision;
    hub := new Hub(epoch);
    hub.PublishValues(first);
    client := new Subscription(None, map[]);
    ghost var start := System(hub.View(), hub.log, client.View());
    assert start == Begun(epoch, first);
    assert hub.data == first;
    FirstPublication(epoch, first);
    for k := 0 to |steps|
      invariant fresh(hub) && fresh(client) && hub.Valid() && hub.epoch == epoch
      invariant System(hub.View(), hub.log, client.View()) == Run(start, steps[..k])
    {
      assert steps[..k + 1][..k] == steps[..k];
      match steps[k]
      case Published(values) => hub.PublishValues(values);
      case Turned => var event := client.Poll(hub);
      case Reconnected => client := new Subscription(client.cursor, client.held);
    }
    assert steps[..|steps|] == steps;
    LogLength(System(hub.View(), hub.log, client.View()));
    DataIsPublished(start, steps);
    if hub.revision < U64 {
      FromScratch(start, steps);
    }
  }

  lemma FromScratch(s: System, steps: seq<Step>)
    requires IsLogOf(s.projection, s.log) && s.projection.initialized && s.subscriber == Subscriber(None, [], map[])
    requires |Run(s, steps).log| < U64
    ensures HoldsItsVersion(Run(s, steps)) && CurrentIfIdle(Run(s, steps))
  {
    hide IsLogOf, Run, HoldsItsVersion, CurrentIfIdle;
    ClientsFollow(s, steps);
  }

  lemma FirstPublication(epoch: string, values: Topics)
    ensures Publish(Projection(epoch, 0, false, map[], []), values).initialized
  {}
}
