/** Themes a machine publishes (`environmentTheme.ts`): the bounded read of the directory, and the
    stream of the published set as a state machine. Refreshes hold one permit from the read to the
    publication; every subscriber has a buffer of one slot that keeps only the newest set. */
module ThemeStream {
  import opened Prelude

  // ----- Reading the directory -----

  const THEME_FILE_SUFFIX := ".json"
  const MAX_THEME_FILES: nat := 32
  const MAX_THEME_TOTAL_BYTES: nat := 192 * 1024

  /** What one guarded read and decoding of a file gives: not a small regular file, blank text, text
      that does not decode, a theme without colors, or a theme and its size. */
  datatype FileRead = Unusable | Blank | Invalid | Colorless | Usable(content: string, bytes: nat)

  datatype Theme = Theme(id: string, content: string)

  predicate EndsWith(entry: string, suffix: string) {
    |suffix| <= |entry| && entry[|entry| - |suffix|..] == suffix
  }

  /** The file of a theme with a publishable id. */
  predicate IsThemeFile(entry: string, publishable: set<string>) {
    |entry| >= 5 && entry[|entry| - 5..] == ".json" && entry[..|entry| - 5] in publishable
  }

  /** How many theme files stand before a place, whatever they hold. */
  function FilesBefore(entries: seq<string>, publishable: set<string>, n: nat): nat
    requires n <= |entries|
  {
    if n == 0 then 0
    else FilesBefore(entries, publishable, n - 1) + if IsThemeFile(entries[n - 1], publishable) then 1 else 0
  }

  /** How many bytes the usable ones among them have. */
  function BytesBefore(entries: seq<string>, publishable: set<string>, files: string -> FileRead, n: nat): nat
    requires n <= |entries|
  {
    if n == 0 then 0
    else
      BytesBefore(entries, publishable, files, n - 1)
      + if IsThemeFile(entries[n - 1], publishable) && files(entries[n - 1]).Usable? then files(entries[n - 1]).bytes else 0
  }

  /** The entry is published: it is one of the first 32 theme files, it is usable, and with all usable ones up to
      it the set has no more than 192 kilobytes. */
  predicate IsPublished(entries: seq<string>, publishable: set<string>, files: string -> FileRead, place: nat) {
    && place < |entries| && IsThemeFile(entries[place], publishable) && files(entries[place]).Usable?
    && FilesBefore(entries, publishable, place) < 32
    && BytesBefore(entries, publishable, files, place + 1) <= 192 * 1024
  }

  lemma {:induction false} FilesGrow(entries: seq<string>, publishable: set<string>, m: nat, n: nat)
    requires m <= n <= |entries|
    ensures FilesBefore(entries, publishable, m) <= FilesBefore(entries, publishable, n)
  {
    if m < n {
      FilesGrow(entries, publishable, m, n - 1);
    }
  }

  lemma {:induction false} BytesGrow(entries: seq<string>, publishable: set<string>, files: string -> FileRead, m: nat, n: nat)
    requires m <= n <= |entries|
    ensures BytesBefore(entries, publishable, files, m) <= BytesBefore(entries, publishable, files, n)
  {
    if m < n {
      BytesGrow(entries, publishable, files, m, n - 1);
    }
  }

  function ThemeAt(entries: seq<string>, publishable: set<string>, files: string -> FileRead, place: nat): Theme
    requires IsPublished(entries, publishable, files, place)
  {
    Theme(entries[place][..|entries[place]| - 5], files(entries[place]).content)
  }

  /** The themes of the published entries among the first `n`, in their order. */
  function PublishedThemes(entries: seq<string>, publishable: set<string>, files: string -> FileRead, n: nat): seq<Theme>
    requires n <= |entries|
  {
    if n == 0 then []
    else
      PublishedThemes(entries, publishable, files, n - 1)
      + if IsPublished(entries, publishable, files, n - 1) then [ThemeAt(entries, publishable, files, n - 1)] else []
  }

  ghost function PublishedPlaces(entries: seq<string>, publishable: set<string>, files: string -> FileRead, n: nat): set<nat> {
    set place: nat | place < n && IsPublished(entries, publishable, files, place)
  }

  lemma PublishedPlacesGrow(entries: seq<string>, publishable: set<string>, files: string -> FileRead, n: nat)
    ensures PublishedPlaces(entries, publishable, files, n + 1)
         == PublishedPlaces(entries, publishable, files, n) + if IsPublished(entries, publishable, files, n) then {n} else {}
  {
  }

  /** They are exactly the published entries, each once and in the order of the directory. */
  lemma {:induction false} PublishedAre(entries: seq<string>, publishable: set<string>, files: string -> FileRead, n: nat) returns (at: seq<nat>)
    requires n <= |entries|
    ensures ArePlaces(at, PublishedPlaces(entries, publishable, files, n))
    ensures |at| == |PublishedThemes(entries, publishable, files, n)|
    ensures forall k :: 0 <= k < |at| ==>
      && IsPublished(entries, publishable, files, at[k])
      && PublishedThemes(entries, publishable, files, n)[k] == ThemeAt(entries, publishable, files, at[k])
  {
    at := [];
    if n > 0 {
      at := PublishedAre(entries, publishable, files, n - 1);
      PublishedPlacesGrow(entries, publishable, files, n - 1);
      if IsPublished(entries, publishable, files, n - 1) {
        OneMorePlace(at, PublishedPlaces(entries, publishable, files, n - 1), n - 1);
        at := at + [n - 1];
      } else {
        assert PublishedThemes(entries, publishable, files, n) == PublishedThemes(entries, publishable, files, n - 1);
      }
    }
  }

  /** Past one of the two limits nothing more is published. */
  lemma {:induction false} NoMorePublished(entries: seq<string>, publishable: set<string>, files: string -> FileRead, end: nat, n: nat)
    requires end <= n <= |entries| && end < |entries|
    requires FilesBefore(entries, publishable, end) >= 32 || BytesBefore(entries, publishable, files, end + 1) > 192 * 1024
    ensures PublishedThemes(entries, publishable, files, n) == PublishedThemes(entries, publishable, files, end)
  {
    if end < n {
      NoMorePublished(entries, publishable, files, end, n - 1);
      FilesGrow(entries, publishable, end, n - 1);
      BytesGrow(entries, publishable, files, end + 1, n);
    }
  }

  /** The id under which an entry would be published. */
  method ThemeId(entry: string, publishable: set<string>) returns (id: Option<string>)
    ensures id == if IsThemeFile(entry, publishable) then Some(entry[..|entry| - 5]) else None
  {
    if !EndsWith(entry, THEME_FILE_SUFFIX) {
      return None;
    }
    var name := entry[..|entry| - |THEME_FILE_SUFFIX|];
    id := if name in publishable then Some(name) else None;
  }

  /** `readPublishedThemes` over the sorted entries: it gives the themes of exactly the published files, in
      order, and opens at most 32 files whatever they hold. */
  method ReadPublishedThemes(entries: seq<string>, publishable: set<string>, files: string -> FileRead)
    returns (themes: seq<Theme>, filesOpened: nat)
    ensures filesOpened <= 32 && filesOpened <= FilesBefore(entries, publishable, |entries|)
    ensures themes == PublishedThemes(entries, publishable, files, |entries|)
  {
    themes, filesOpened := [], 0;
    var examined, totalBytes := 0, 0;
    for i := 0 to |entries|
      invariant examined == filesOpened == FilesBefore(entries, publishable, i) <= MAX_THEME_FILES
      invariant totalBytes == BytesBefore(entries, publishable, files, i) <= MAX_THEME_TOTAL_BYTES
      invariant themes == PublishedThemes(entries, publishable, files, i)
    {
      var entry := entries[i];
      FilesGrow(entries, publishable, i + 1, |entries|);
      var id := ThemeId(entry, publishable);
      if id.None? {
        continue;
      }
      examined := examined + 1;
      if examined > MAX_THEME_FILES {
        NoMorePublished(entries, publishable, files, i, |entries|);
        return;
      }
      filesOpened := filesOpened + 1;
      var read := files(entry);
      if !read.Usable? {
        continue;
      }
      totalBytes := totalBytes + read.bytes;
      if totalBytes > MAX_THEME_TOTAL_BYTES {
        NoMorePublished(entries, publishable, files, i, |entries|);
        return;
      }
      themes := themes + [Theme(id.value, read.content)];
    }
  }

  // ----- The stream of the published set -----

  /** The published set and the number it was observed at. */
  datatype Published = Published(number: nat, themes: seq<Theme>)

  type SubscriberId = nat

  /** Who refreshes: the watcher or a caller of `current`, or a subscriber taking its snapshot. */
  datatype Owner = Anyone | ForSubscriber(id: SubscriberId)

  /** How far the holder of the permit got. */
  datatype Refresh = Free | Reading(owner: Owner) | HasRead(owner: Owner, themes: seq<Theme>) | Publishing(owner: Owner) | Finished(owner: Owner)

  /** A subscriber has its slot from the moment it subscribes; it has seen nothing until its own
      refresh gives it a snapshot. */
  datatype Subscriber = Subscriber(slot: Option<Published>, seen: seq<Published>)

  /** `history` records every value the published cell ever had; the last one is its current value.
      `handed` is the number of the newest value that was handed to the slots. */
  datatype State = State(history: seq<Published>, handed: nat, refresh: Refresh, subscribers: map<SubscriberId, Subscriber>)

  const Init := State([Published(0, [])], 0, Free, map[])

  /** Interruption ends a refresh before it updates the set (`GiveUp`) or between the update and its
      publication (`Abandon`); the stream it was a snapshot for ends with it. */
  datatype Step =
    | Acquire(owner: Owner)
    | ReadDirectory(themes: seq<Theme>)
    | GiveUp
    | Update
    | Publish
    | Abandon
    | Release
    | Subscribe(id: SubscriberId)
    | Receive(id: SubscriberId)
    | Unsubscribe(id: SubscriberId)

  function Current(s: State): Published
    requires s.history != []
  {
    s.history[|s.history| - 1]
  }

  /** The subscriber has attached its slot and waits for its snapshot. */
  predicate IsAttached(s: State, id: SubscriberId) {
    id in s.subscribers && s.subscribers[id].seen == []
  }

  predicate Enabled(s: State, step: Step) {
    && s.history != []
    && match step
       case Acquire(owner) => s.refresh.Free? && (owner.ForSubscriber? ==> IsAttached(s, owner.id))
       case ReadDirectory(_) => s.refresh.Reading?
       case GiveUp => s.refresh.Reading? || s.refresh.HasRead?
       case Update => s.refresh.HasRead?
       case Publish => s.refresh.Publishing?
       case Abandon => s.refresh.Publishing?
       case Release => s.refresh.Finished?
       case Subscribe(id) => id !in s.subscribers
       case Receive(id) => id in s.subscribers && s.subscribers[id].seen != [] && s.subscribers[id].slot.Some?
       case Unsubscribe(id) => id in s.subscribers && (s.refresh.Free? || s.refresh.owner != ForSubscriber(id))
  }

  /** A slot holds one value; a newer one replaces it. */
  function Filled(subscribers: map<SubscriberId, Subscriber>, value: Published): map<SubscriberId, Subscriber> {
    map id | id in subscribers :: subscribers[id].(slot := Some(value))
  }

  /** What the filter lets through: numbers after the snapshot's. */
  function Received(subscriber: Subscriber): Subscriber
    requires subscriber.seen != [] && subscriber.slot.Some?
  {
    var update := subscriber.slot.value;
    Subscriber(None, if update.number > subscriber.seen[0].number then subscriber.seen + [update] else subscriber.seen)
  }

  function WithoutOwner(subscribers: map<SubscriberId, Subscriber>, owner: Owner): map<SubscriberId, Subscriber> {
    if owner.ForSubscriber? then subscribers - {owner.id} else subscribers
  }

  function Apply(s: State, step: Step): State
    requires Enabled(s, step)
  {
    match step
    case Acquire(owner) => s.(refresh := Reading(owner))
    case ReadDirectory(themes) => s.(refresh := HasRead(s.refresh.owner, themes))
    case GiveUp => s.(refresh := Free, subscribers := WithoutOwner(s.subscribers, s.refresh.owner))
    case Update =>
      if Current(s).themes == s.refresh.themes then s.(refresh := Finished(s.refresh.owner))
      else s.(history := s.history + [Published(Current(s).number + 1, s.refresh.themes)], refresh := Publishing(s.refresh.owner))
    case Publish =>
      s.(refresh := Finished(s.refresh.owner), handed := Current(s).number, subscribers := Filled(s.subscribers, Current(s)))
    case Abandon => s.(refresh := Free, subscribers := WithoutOwner(s.subscribers, s.refresh.owner))
    case Release =>
      if s.refresh.owner.ForSubscriber? && IsAttached(s, s.refresh.owner.id) then
        var id := s.refresh.owner.id;
        s.(refresh := Free, subscribers := s.subscribers[id := s.subscribers[id].(seen := [Current(s)])])
      else s.(refresh := Free)
    case Subscribe(id) => s.(subscribers := s.subscribers[id := Subscriber(None, [])])
    case Receive(id) => s.(subscribers := s.subscribers[id := Received(s.subscribers[id])])
    case Unsubscribe(id) => s.(subscribers := s.subscribers - {id})
  }

  predicate ValidRun(s: State, steps: seq<Step>)
    decreases |steps|
  {
    steps == [] || (Enabled(s, steps[0]) && ValidRun(Apply(s, steps[0]), steps[1..]))
  }

  function Run(s: State, steps: seq<Step>): State
    requires ValidRun(s, steps)
    decreases |steps|
  {
    if steps == [] then s else Run(Apply(s, steps[0]), steps[1..])
  }

  // ----- The invariant -----

  predicate HistoryOk(history: seq<Published>) {
    && history != []
    && (forall i :: 0 <= i < |history| ==> history[i].number == i)
    && (forall i :: 0 < i < |history| ==> history[i].themes != history[i - 1].themes)
  }

  predicate InHistory(history: seq<Published>, value: Published) {
    value.number < |history| && history[value.number] == value
  }

  function LastSeen(subscriber: Subscriber): Published
    requires subscriber.seen != []
  {
    subscriber.seen[|subscriber.seen| - 1]
  }

  predicate Increasing(seen: seq<Published>) {
    forall i, j :: 0 <= i < j < |seen| ==> seen[i].number < seen[j].number
  }

  /** Everything seen was published, in order, and after the snapshot it was handed out; and what a
      subscriber has not seen yet of the newest value handed out is in its slot. */
  predicate SubscriberOk(history: seq<Published>, handed: nat, subscriber: Subscriber) {
    && (forall k :: 0 <= k < |subscriber.seen| ==>
          InHistory(history, subscriber.seen[k]) && (k > 0 ==> subscriber.seen[k].number <= handed))
    && Increasing(subscriber.seen)
    && (subscriber.slot.Some? ==> InHistory(history, subscriber.slot.value) && subscriber.slot.value.number == handed)
    && (subscriber.seen != [] ==> subscriber.slot.Some? || LastSeen(subscriber).number >= handed)
    && (|subscriber.seen| > 1 && subscriber.slot.Some? ==> LastSeen(subscriber).number < handed)
  }

  ghost predicate Inv(s: State) {
    && HistoryOk(s.history)
    && s.handed < |s.history| - (if s.refresh.Publishing? then 1 else 0)
    && forall id <- s.subscribers :: SubscriberOk(s.history, s.handed, s.subscribers[id])
  }

  /** A longer history is still the history of what was seen. */
  lemma HistoryGrows(history: seq<Published>, next: Published, handed: nat, subscriber: Subscriber)
    requires SubscriberOk(history, handed, subscriber)
    ensures SubscriberOk(history + [next], handed, subscriber)
  {
    assert forall k :: 0 <= k < |history| ==> (history + [next])[k] == history[k];
  }

  /** A value handed out lands in the slot, over whatever was there. */
  lemma SlotIsFilled(history: seq<Published>, handed: nat, subscriber: Subscriber)
    requires HistoryOk(history) && handed < |history| - 1
    requires SubscriberOk(history, handed, subscriber)
    ensures SubscriberOk(history, |history| - 1, subscriber.(slot := Some(history[|history| - 1])))
  {
  }

  /** Taking the slot's value shows it unless the snapshot already did. */
  lemma ReceiveKeepsSubscriber(history: seq<Published>, handed: nat, subscriber: Subscriber)
    requires SubscriberOk(history, handed, subscriber) && subscriber.seen != [] && subscriber.slot.Some?
    ensures SubscriberOk(history, handed, Received(subscriber))
  {
    assert forall k :: 0 <= k < |subscriber.seen| ==> subscriber.seen[k].number <= LastSeen(subscriber).number;
    var received := Received(subscriber);
    assert forall k :: 0 <= k < |subscriber.seen| ==> received.seen[k] == subscriber.seen[k];
  }

  lemma UpdateStep(s: State)
    requires Inv(s) && Enabled(s, Update)
    ensures Inv(Apply(s, Update))
  {
    var s' := Apply(s, Update);
    if s'.history != s.history {
      forall id <- s'.subscribers
        ensures SubscriberOk(s'.history, s'.handed, s'.subscribers[id])
      {
        HistoryGrows(s.history, Current(s'), s.handed, s.subscribers[id]);
      }
    }
  }

  lemma PublishStep(s: State)
    requires Inv(s) && Enabled(s, Publish)
    ensures Inv(Apply(s, Publish))
  {
    var s' := Apply(s, Publish);
    forall id <- s'.subscribers
      ensures SubscriberOk(s'.history, s'.handed, s'.subscribers[id])
    {
      SlotIsFilled(s.history, s.handed, s.subscribers[id]);
    }
  }

  lemma ReceiveStep(s: State, id: SubscriberId)
    requires Inv(s) && Enabled(s, Receive(id))
    ensures Inv(Apply(s, Receive(id)))
  {
    var s' := Apply(s, Receive(id));
    ReceiveKeepsSubscriber(s.history, s.handed, s.subscribers[id]);
    forall other <- s'.subscribers
      ensures SubscriberOk(s'.history, s'.handed, s'.subscribers[other])
    {
      assert other != id ==> s'.subscribers[other] == s.subscribers[other];
    }
  }

  lemma StepKeepsInv(s: State, step: Step)
    requires Inv(s) && Enabled(s, step)
    ensures Inv(Apply(s, step))
  {
    match step
    case Update => UpdateStep(s);
    case Publish => PublishStep(s);
    case Receive(id) => ReceiveStep(s, id);
    case _ =>
  }

  lemma {:induction false} RunKeepsInv(s: State, steps: seq<Step>)
    requires Inv(s) && ValidRun(s, steps)
    ensures Inv(Run(s, steps))
    decreases |steps|
  {
    if steps != [] {
      StepKeepsInv(s, steps[0]);
      RunKeepsInv(Apply(s, steps[0]), steps[1..]);
    }
  }

  // ----- What every run keeps -----

  /** In every interleaving each subscriber sees values that were really published, its snapshot first
      and then strictly newer ones. */
  lemma NeverGoesBackwards(steps: seq<Step>, id: SubscriberId)
    requires ValidRun(Init, steps) && id in Run(Init, steps).subscribers
    ensures var s := Run(Init, steps);
      var seen := s.subscribers[id].seen;
      && Increasing(seen)
      && forall k :: 0 <= k < |seen| ==> seen[k].number < |s.history| && seen[k] == s.history[seen[k].number]
  {
    RunKeepsInv(Init, steps);
  }

  /** A refresh that updates leaves the set it read published, and a number is used up only by a
      genuine change. */
  lemma RefreshPublishesWhatItRead(steps: seq<Step>)
    requires ValidRun(Init, steps) && Enabled(Run(Init, steps), Update)
    ensures var s := Run(Init, steps);
      var s' := Apply(s, Update);
      && Current(s').themes == s.refresh.themes
      && (s'.history == s.history <==> Current(s).themes == s.refresh.themes)
      && (forall i :: 0 < i < |s'.history| ==> s'.history[i].number == i && s'.history[i].themes != s'.history[i - 1].themes)
  {
    RunKeepsInv(Init, steps);
    StepKeepsInv(Run(Init, steps), Update);
  }

  // ----- When the end is missed -----

  /** A refresh was abandoned between update and publication, and nothing was published since. */
  function EndLost(steps: seq<Step>, lost: bool): bool {
    if steps == [] then lost
    else EndLost(steps[1..], if steps[0].Abandon? then true else if steps[0].Publish? then false else lost)
  }

  /** The current set is not the one that was handed out last, nor about to be. */
  predicate IsBehind(s: State) {
    s.handed < |s.history| - if s.refresh.Publishing? then 2 else 1
  }

  lemma {:induction false} BehindExactly(s: State, steps: seq<Step>, lost: bool)
    requires Inv(s) && ValidRun(s, steps)
    requires if s.refresh.Publishing? then IsBehind(s) ==> lost else IsBehind(s) <==> lost
    ensures var s' := Run(s, steps);
      if s'.refresh.Publishing? then IsBehind(s') ==> EndLost(steps, lost) else IsBehind(s') <==> EndLost(steps, lost)
    decreases |steps|
  {
    if steps != [] {
      StepKeepsInv(s, steps[0]);
      var lost' := if steps[0].Abandon? then true else if steps[0].Publish? then false else lost;
      BehindExactly(Apply(s, steps[0]), steps[1..], lost');
    }
  }

  /** What a subscriber will have seen once it has received what its slot holds. */
  function Drained(subscriber: Subscriber): Subscriber
    requires subscriber.seen != []
  {
    if subscriber.slot.Some? then Received(subscriber) else subscriber
  }

  lemma DrainedIsNewest(s: State, id: SubscriberId)
    requires Inv(s) && !s.refresh.Publishing? && id in s.subscribers && s.subscribers[id].seen != []
    ensures var subscriber := s.subscribers[id];
      LastSeen(Drained(subscriber)) == Current(s) <==> !IsBehind(s) || subscriber.seen[0] == Current(s)
  {
    var subscriber := s.subscribers[id];
    assert SubscriberOk(s.history, s.handed, subscriber);
    assert InHistory(s.history, subscriber.seen[0]) && InHistory(s.history, LastSeen(subscriber));
    ReceivedIsOk(s, subscriber);
  }

  lemma ReceivedIsOk(s: State, subscriber: Subscriber)
    requires SubscriberOk(s.history, s.handed, subscriber) && subscriber.seen != []
    ensures SubscriberOk(s.history, s.handed, Drained(subscriber))
  {
    if subscriber.slot.Some? {
      ReceiveKeepsSubscriber(s.history, s.handed, subscriber);
    }
  }

  /** With no publication pending, a subscriber that receives what is left ends on the published set
      exactly when no refresh was abandoned before its publication since the last one, or it took its
      snapshot after that. */
  lemma EndsOnPublishedExactly(steps: seq<Step>, id: SubscriberId)
    requires ValidRun(Init, steps)
    requires var s := Run(Init, steps); !s.refresh.Publishing? && id in s.subscribers && s.subscribers[id].seen != []
    ensures var s := Run(Init, steps);
      var subscriber := s.subscribers[id];
      && s.history != []
      && (LastSeen(Drained(subscriber)) == Current(s) <==> !EndLost(steps, false) || subscriber.seen[0] == Current(s))
  {
    RunKeepsInv(Init, steps);
    BehindExactly(Init, steps, false);
    DrainedIsNewest(Run(Init, steps), id);
  }

  /** So if no refresh is abandoned there, nobody misses the end: the last value seen is the published
      set, or the slot holds exactly that set. */
  lemma NeverMissesTheEnd(steps: seq<Step>, id: SubscriberId)
    requires ValidRun(Init, steps) && id in Run(Init, steps).subscribers
    requires !Run(Init, steps).refresh.Publishing? && !EndLost(steps, false)
    ensures var s := Run(Init, steps);
      var subscriber := s.subscribers[id];
      && s.history != []
      && (if subscriber.slot.Some? then subscriber.slot.value == Current(s)
          else subscriber.seen != [] ==> LastSeen(subscriber) == Current(s))
  {
    RunKeepsInv(Init, steps);
    BehindExactly(Init, steps, false);
    var s := Run(Init, steps);
    assert SubscriberOk(s.history, s.handed, s.subscribers[id]);
    if s.subscribers[id].seen != [] {
      DrainedIsNewest(s, id);
    }
  }

  /** Receiving is a step, and has that effect. */
  lemma ReceivingCatchesUp(steps: seq<Step>, id: SubscriberId)
    requires ValidRun(Init, steps) && Enabled(Run(Init, steps), Receive(id))
    requires !Run(Init, steps).refresh.Publishing?
    ensures var s := Run(Init, steps);
      var subscriber := Apply(s, Receive(id)).subscribers[id];
      && subscriber.slot.None? && subscriber.seen != []
      && (LastSeen(subscriber) == Current(s) <==> !EndLost(steps, false) || s.subscribers[id].seen[0] == Current(s))
  {
    EndsOnPublishedExactly(steps, id);
  }

  predicate ReadsOnly(step: Step, themes: seq<Theme>) {
    step.ReadDirectory? ==> step.themes == themes
  }

  /** The set in the cell was never handed out, and no refresh has read anything else. */
  ghost predicate IsStranded(s: State, themes: seq<Theme>) {
    && s.history != [] && IsBehind(s) && !s.refresh.Publishing?
    && Current(s).themes == themes && (s.refresh.HasRead? ==> s.refresh.themes == themes)
  }

  lemma StrandedStep(s: State, step: Step, themes: seq<Theme>)
    requires IsStranded(s, themes) && Enabled(s, step) && ReadsOnly(step, themes)
    ensures var s' := Apply(s, step); IsStranded(s', themes) && s'.history == s.history && s'.handed == s.handed
  {
  }

  /** An end that was lost stays lost while refreshes, whoever asks for them, read the same set. */
  lemma {:induction false} LostStaysLost(s: State, steps: seq<Step>, themes: seq<Theme>)
    requires IsStranded(s, themes) && ValidRun(s, steps) && (forall step <- steps :: ReadsOnly(step, themes))
    ensures var s' := Run(s, steps); IsStranded(s', themes) && s'.history == s.history && s'.handed == s.handed
    decreases |steps|
  {
    if steps != [] {
      assert steps[0] in steps;
      assert forall step <- steps[1..] :: step in steps;
      StrandedStep(s, steps[0], themes);
      LostStaysLost(Apply(s, steps[0]), steps[1..], themes);
    }
  }

  // ----- What a slow subscriber skips -----

  /** The subscriber has seen that number, or has it in its slot. */
  predicate Shows(subscriber: Subscriber, number: nat) {
    (exists k :: 0 <= k < |subscriber.seen| && subscriber.seen[k].number == number)
    || (subscriber.slot.Some? && subscriber.slot.value.number == number)
  }

  predicate ShowsEvery(handed: nat, subscriber: Subscriber)
    requires subscriber.seen != []
  {
    forall number :: subscriber.seen[0].number < number <= handed ==> Shows(subscriber, number)
  }

  /** This publication replaces a value the subscriber still had to receive, or follows one that was
      never handed out. */
  predicate LeavesGap(s: State, step: Step, id: SubscriberId)
    requires Enabled(s, step)
  {
    && step.Publish? && id in s.subscribers && s.subscribers[id].seen != []
    && OpensGap(s.handed, s.subscribers[id], Current(s).number)
  }

  predicate OpensGap(handed: nat, subscriber: Subscriber, next: nat)
    requires subscriber.seen != []
  {
    var first := subscriber.seen[0].number;
    || (subscriber.slot.Some? && subscriber.slot.value.number > first)
    || (if handed < first then first else handed) + 1 < next
  }

  /** Some publication of the run left this subscriber, or the present one of its name, a gap. */
  function HasSkipped(s: State, steps: seq<Step>, id: SubscriberId, skipped: bool): bool
    requires ValidRun(s, steps)
    decreases |steps|
  {
    if steps == [] then skipped
    else
      var skipped' := if steps[0] == Subscribe(id) then false else skipped || LeavesGap(s, steps[0], id);
      HasSkipped(Apply(s, steps[0]), steps[1..], id, skipped')
  }

  predicate SkippedOk(s: State, id: SubscriberId, skipped: bool) {
    id in s.subscribers ==>
      if s.subscribers[id].seen == [] then !skipped else skipped <==> !ShowsEvery(s.handed, s.subscribers[id])
  }

  /** A gap once opened is never filled: whatever comes is newer. */
  lemma PublishGap(history: seq<Published>, handed: nat, subscriber: Subscriber)
    requires HistoryOk(history) && handed < |history| - 1
    requires SubscriberOk(history, handed, subscriber) && subscriber.seen != []
    ensures var subscriber' := subscriber.(slot := Some(history[|history| - 1]));
      ShowsEvery(|history| - 1, subscriber') <==>
        ShowsEvery(handed, subscriber) && !OpensGap(handed, subscriber, |history| - 1)
  {
    var first, next := subscriber.seen[0].number, |history| - 1;
    var subscriber' := subscriber.(slot := Some(history[next]));
    assert forall number :: Shows(subscriber', number) <==> number == next || SeenNumber(subscriber, number);
    assert forall k :: 0 < k < |subscriber.seen| ==> subscriber.seen[k].number <= LastSeen(subscriber).number;
    if subscriber.slot.Some? && handed > first {
      assert !SeenNumber(subscriber, handed);
      assert !Shows(subscriber', handed);
    } else if (if handed < first then first else handed) + 1 < next {
      var left := (if handed < first then first else handed) + 1;
      assert !SeenNumber(subscriber, left);
      assert !Shows(subscriber', left);
    } else if !ShowsEvery(handed, subscriber) {
      var number :| first < number <= handed && !Shows(subscriber, number);
      assert !Shows(subscriber', number);
    } else {
      forall number | first < number <= next
        ensures Shows(subscriber', number)
      {
        if number < next {
          assert Shows(subscriber, number);
        }
      }
    }
  }

  predicate SeenNumber(subscriber: Subscriber, number: nat) {
    exists k :: 0 <= k < |subscriber.seen| && subscriber.seen[k].number == number
  }

  lemma ReceiveGap(handed: nat, subscriber: Subscriber)
    requires subscriber.seen != [] && subscriber.slot.Some?
    ensures ShowsEvery(handed, Received(subscriber)) <==> ShowsEvery(handed, subscriber)
  {
    var received := Received(subscriber);
    forall number | subscriber.seen[0].number < number
      ensures Shows(received, number) <==> Shows(subscriber, number)
    {
      if Shows(subscriber, number) {
        if number == subscriber.slot.value.number {
          assert received.seen[|subscriber.seen|].number == number;
        } else {
          var k :| 0 <= k < |subscriber.seen| && subscriber.seen[k].number == number;
          assert received.seen[k].number == number;
        }
      }
    }
  }

  lemma StepKeepsSkipped(s: State, step: Step, id: SubscriberId, skipped: bool)
    requires Inv(s) && Enabled(s, step) && SkippedOk(s, id, skipped)
    ensures SkippedOk(Apply(s, step), id, if step == Subscribe(id) then false else skipped || LeavesGap(s, step, id))
  {
    if step.Publish? {
      PublishKeepsSkipped(s, id, skipped);
    } else if step == Receive(id) {
      ReceiveGap(s.handed, s.subscribers[id]);
    }
  }

  lemma PublishKeepsSkipped(s: State, id: SubscriberId, skipped: bool)
    requires Inv(s) && Enabled(s, Publish) && SkippedOk(s, id, skipped)
    ensures SkippedOk(Apply(s, Publish), id, skipped || LeavesGap(s, Publish, id))
  {
    if id in s.subscribers && s.subscribers[id].seen != [] {
      PublishGap(s.history, s.handed, s.subscribers[id]);
    }
  }

  lemma {:induction false} RunKeepsSkipped(s: State, steps: seq<Step>, id: SubscriberId, skipped: bool)
    requires Inv(s) && ValidRun(s, steps) && SkippedOk(s, id, skipped)
    ensures SkippedOk(Run(s, steps), id, HasSkipped(s, steps, id, skipped))
    decreases |steps|
  {
    if steps != [] {
      var skipped' := if steps[0] == Subscribe(id) then false else skipped || LeavesGap(s, steps[0], id);
      StepKeepsInv(s, steps[0]);
      StepKeepsSkipped(s, steps[0], id, skipped);
      RunKeepsSkipped(Apply(s, steps[0]), steps[1..], id, skipped');
    }
  }

  /** From its snapshot on, a subscriber sees every number handed out, or has the last one in its slot,
      exactly when no publication replaced a value it had yet to receive or followed one that was never
      handed out. */
  lemma SeesEveryChangeExactly(steps: seq<Step>, id: SubscriberId)
    requires ValidRun(Init, steps)
    requires var s := Run(Init, steps); id in s.subscribers && s.subscribers[id].seen != []
    ensures var s := Run(Init, steps);
      (forall number :: s.subscribers[id].seen[0].number < number <= s.handed ==> Shows(s.subscribers[id], number))
      <==> !HasSkipped(Init, steps, id, false)
  {
    RunKeepsSkipped(Init, steps, id, false);
  }

  // ----- Runs that skip a change or lose the end -----

  lemma RunCons(s: State, step: Step, rest: seq<Step>)
    requires Enabled(s, step) && ValidRun(Apply(s, step), rest)
    ensures ValidRun(s, [step] + rest) && Run(s, [step] + rest) == Run(Apply(s, step), rest)
  {
    assert ([step] + rest)[1..] == rest;
  }

  lemma {:induction false} RunAppend(s: State, a: seq<Step>, b: seq<Step>)
    requires ValidRun(s, a) && ValidRun(Run(s, a), b)
    ensures ValidRun(s, a + b) && Run(s, a + b) == Run(Run(s, a), b)
    decreases |a|
  {
    if a == [] {
      assert a + b == b;
    } else {
      assert (a + b)[1..] == a[1..] + b;
      RunAppend(Apply(s, a[0]), a[1..], b);
    }
  }

  function Changed(s: State, themes: seq<Theme>): State
    requires s.history != []
  {
    s.(history := s.history + [Published(Current(s).number + 1, themes)])
  }

  /** A refresh that finds a change and is not interrupted. */
  lemma RefreshRuns(s: State, themes: seq<Theme>) returns (steps: seq<Step>)
    requires s.history != [] && s.refresh.Free? && Current(s).themes != themes
    ensures ValidRun(s, steps)
    ensures var value := Current(Changed(s, themes));
      Run(s, steps) == Changed(s, themes).(handed := value.number, subscribers := Filled(s.subscribers, value))
  {
    var s1 := Apply(s, Acquire(Anyone));
    var s2 := Apply(s1, ReadDirectory(themes));
    var s3 := Apply(s2, Update);
    var s4 := Apply(s3, Publish);
    RunCons(s4, Release, []);
    RunCons(s3, Publish, [Release] + []);
    RunCons(s2, Update, [Publish] + ([Release] + []));
    RunCons(s1, ReadDirectory(themes), [Update] + ([Publish] + ([Release] + [])));
    steps := [Acquire(Anyone)] + ([ReadDirectory(themes)] + ([Update] + ([Publish] + ([Release] + []))));
    RunCons(s, Acquire(Anyone), [ReadDirectory(themes)] + ([Update] + ([Publish] + ([Release] + []))));
  }

  /** A refresh that finds a change and is interrupted before it publishes. */
  lemma AbandonedRuns(s: State, themes: seq<Theme>) returns (steps: seq<Step>)
    requires s.history != [] && s.refresh.Free? && Current(s).themes != themes
    ensures ValidRun(s, steps) && Run(s, steps) == Changed(s, themes)
  {
    var s1 := Apply(s, Acquire(Anyone));
    var s2 := Apply(s1, ReadDirectory(themes));
    var s3 := Apply(s2, Update);
    RunCons(s3, Abandon, []);
    RunCons(s2, Update, [Abandon] + []);
    RunCons(s1, ReadDirectory(themes), [Update] + ([Abandon] + []));
    steps := [Acquire(Anyone)] + ([ReadDirectory(themes)] + ([Update] + ([Abandon] + [])));
    RunCons(s, Acquire(Anyone), [ReadDirectory(themes)] + ([Update] + ([Abandon] + [])));
  }

  lemma TwoRefreshesRun(s: State, first: seq<Theme>, second: seq<Theme>) returns (steps: seq<Step>)
    requires s.history != [] && s.refresh.Free? && Current(s).themes != first && first != second
    ensures ValidRun(s, steps)
    ensures var value := Current(Changed(Changed(s, first), second));
      Run(s, steps) == Changed(Changed(s, first), second).(handed := value.number, subscribers := Filled(s.subscribers, value))
  {
    var steps1 := RefreshRuns(s, first);
    var s1 := Run(s, steps1);
    var steps2 := RefreshRuns(s1, second);
    RunAppend(s, steps1, steps2);
    steps := steps1 + steps2;
    var value := Current(Changed(s1, second));
    assert Filled(s1.subscribers, value) == Filled(s.subscribers, value);
  }

  lemma FilledThenReceived(subscriber: Subscriber, value: Published)
    requires subscriber.seen != [] && value.number > subscriber.seen[0].number
    ensures Received(subscriber.(slot := Some(value))) == Subscriber(None, subscriber.seen + [value])
  {
  }

  /** From any state, two changes while a subscriber does not receive make it skip the first. */
  lemma SlowSubscriberSkips(s: State, id: SubscriberId, first: seq<Theme>, second: seq<Theme>) returns (steps: seq<Step>)
    requires Inv(s) && s.refresh.Free? && id in s.subscribers && s.subscribers[id].seen != []
    requires Current(s).themes != first && first != second
    ensures ValidRun(s, steps) && id in Run(s, steps).subscribers
    ensures var seen := Run(s, steps).subscribers[id].seen;
      && seen == s.subscribers[id].seen + [Published(Current(s).number + 2, second)]
      && (forall k :: 0 <= k < |seen| ==> seen[k].number != Current(s).number + 1)
  {
    var refreshes := TwoRefreshesRun(s, first, second);
    var s' := Run(s, refreshes);
    var subscriber, value := s.subscribers[id], Current(Changed(Changed(s, first), second));
    assert SubscriberOk(s.history, s.handed, subscriber);
    assert InHistory(s.history, subscriber.seen[0]);
    assert s'.subscribers[id] == subscriber.(slot := Some(value));
    FilledThenReceived(subscriber, value);
    RunCons(s', Receive(id), []);
    RunAppend(s, refreshes, [Receive(id)] + []);
    steps := refreshes + ([Receive(id)] + []);
    assert Apply(s', Receive(id)).subscribers[id].seen == subscriber.seen + [value];
    forall k | 0 <= k < |subscriber.seen|
      ensures subscriber.seen[k].number <= Current(s).number
    {
      assert InHistory(s.history, subscriber.seen[k]);
    }
  }

  /** From any state, an abandoned refresh leaves a subscriber without the published set, and without
      anything to receive that would show it. */
  lemma AbandonedEndIsMissed(s: State, id: SubscriberId, themes: seq<Theme>) returns (steps: seq<Step>)
    requires Inv(s) && s.refresh.Free? && Current(s).themes != themes
    requires id in s.subscribers && s.subscribers[id].seen != []
    ensures ValidRun(s, steps) && Run(s, steps).subscribers == s.subscribers
    ensures Run(s, steps).history != [] && Current(Run(s, steps)).themes == themes
    ensures LastSeen(Drained(s.subscribers[id])) != Current(Run(s, steps))
  {
    steps := AbandonedRuns(s, themes);
    RunKeepsInv(s, steps);
    DrainedIsNewest(Run(s, steps), id);
    assert InHistory(s.history, s.subscribers[id].seen[0]);
  }

  const Connected := State([Published(0, [])], 0, Free, map[0 := Subscriber(None, [Published(0, [])])])

  lemma FirstSubscriber() returns (steps: seq<Step>)
    ensures ValidRun(Init, steps) && Run(Init, steps) == Connected
  {
    var s1 := Apply(Init, Subscribe(0));
    var s2 := Apply(s1, Acquire(ForSubscriber(0)));
    var s3 := Apply(s2, ReadDirectory([]));
    var s4 := Apply(s3, Update);
    assert Apply(s4, Release) == Connected;
    RunCons(s4, Release, []);
    RunCons(s3, Update, [Release] + []);
    RunCons(s2, ReadDirectory([]), [Update] + ([Release] + []));
    RunCons(s1, Acquire(ForSubscriber(0)), [ReadDirectory([])] + ([Update] + ([Release] + [])));
    steps := [Subscribe(0)] + ([Acquire(ForSubscriber(0))] + ([ReadDirectory([])] + ([Update] + ([Release] + []))));
    RunCons(Init, Subscribe(0), [Acquire(ForSubscriber(0))] + ([ReadDirectory([])] + ([Update] + ([Release] + []))));
  }

  /** Both happen: a subscriber of an empty set sees the second change but not the first; and one is left
      with the empty set, whatever refreshes read until the directory changes again. */
  lemma ChangesCanBeMissed(theme: Theme) returns (skips: seq<Step>, loses: seq<Step>)
    ensures ValidRun(Init, skips) && 0 in Run(Init, skips).subscribers
    ensures Run(Init, skips).subscribers[0].seen == [Published(0, []), Published(2, [])]
    ensures ValidRun(Init, loses) && 0 in Run(Init, loses).subscribers
    ensures Run(Init, loses).subscribers[0] == Subscriber(None, [Published(0, [])])
    ensures Run(Init, loses).history == [Published(0, []), Published(1, [theme])] && IsStranded(Run(Init, loses), [theme])
  {
    skips := OneSkips(theme);
    loses := OneLoses(theme);
  }

  lemma OneSkips(theme: Theme) returns (steps: seq<Step>)
    ensures ValidRun(Init, steps) && 0 in Run(Init, steps).subscribers
    ensures Run(Init, steps).subscribers[0].seen == [Published(0, []), Published(2, [])]
  {
    var connect := FirstSubscriber();
    assert SubscriberOk(Connected.history, 0, Connected.subscribers[0]);
    var slow := SlowSubscriberSkips(Connected, 0, [theme], []);
    RunAppend(Init, connect, slow);
    steps := connect + slow;
  }

  lemma OneLoses(theme: Theme) returns (steps: seq<Step>)
    ensures ValidRun(Init, steps) && 0 in Run(Init, steps).subscribers
    ensures Run(Init, steps).subscribers[0] == Subscriber(None, [Published(0, [])])
    ensures Run(Init, steps).history == [Published(0, []), Published(1, [theme])] && IsStranded(Run(Init, steps), [theme])
  {
    var connect := FirstSubscriber();
    var abandoned := AbandonedRuns(Connected, [theme]);
    RunAppend(Init, connect, abandoned);
    steps := connect + abandoned;
  }
}
