/**
 Event groups in the words of event_groups.c: every operation, and every run of them, does to the words what it does
 to the sets of bits. What is proved of runs on sets is then proved of runs on words.
 */
module EventWordRuns {
  import opened EventGroups
  import opened EventWords

  // A task in xTasksWaitingForBits and the value of its event list item.
  datatype WordItem = WordItem(task: TaskId, word: bv32)

  // `values` has the event list item values of the tasks that have left the list and not run since.
  datatype WordGroup = WordGroup(bits: bv32, waiting: seq<WordItem>, values: map<TaskId, bv32>)

  datatype WordOutcome = WordReturns(value: bv32) | WordBlocks

  // A call of xEventGroupWaitBits.
  datatype WordCall = WordCall(task: TaskId, wanted: bv32, clear: bool, all: bool)

  // ----- the operations

  function LeftWords(items: seq<WordItem>, bits: bv32): seq<WordItem> {
    if items == [] then []
    else if WordMatches(items[0].word, bits) then LeftWords(items[1..], bits)
    else [items[0]] + LeftWords(items[1..], bits)
  }

  function ClearWord(items: seq<WordItem>, bits: bv32): bv32 {
    if items == [] then 0
    else
      (if WordMatches(items[0].word, bits) && ClearsOnExit(items[0].word) then WantedBits(items[0].word) else 0)
      | ClearWord(items[1..], bits)
  }

  function WokenWords(items: seq<WordItem>, bits: bv32, values: map<TaskId, bv32>): map<TaskId, bv32> {
    if items == [] then values
    else if WordMatches(items[0].word, bits) then WokenWords(items[1..], bits, values[items[0].task := WokenWord(bits)])
    else WokenWords(items[1..], bits, values)
  }

  // xEventGroupSetBits
  function SetWord(g: WordGroup, toSet: bv32): WordGroup {
    SetTo(g, g.bits | toSet)
  }

  // The walk over the list when the bits are set: every item is judged by the same bits, which are cleared at its end.
  function SetTo(g: WordGroup, bits: bv32): WordGroup {
    WordGroup(bits & !ClearWord(g.waiting, bits), LeftWords(g.waiting, bits), WokenWords(g.waiting, bits, g.values))
  }

  // xEventGroupClearBits
  function ClearBitsWord(g: WordGroup, clear: bv32): WordGroup {
    g.(bits := g.bits & !clear)
  }

  // vTaskPlaceOnUnorderedEventList
  function BlockWord(g: WordGroup, c: WordCall): WordGroup {
    g.(waiting := g.waiting + [WordItem(c.task, ItemWord(c.wanted, c.clear, c.all))])
  }

  // xEventGroupWaitBits up to where it blocks.
  function WaitWord(g: WordGroup, c: WordCall, blockTime: bool): (WordGroup, WordOutcome) {
    if MatchFound(c.wanted, c.all, g.bits)
    then (if c.clear then ClearBitsWord(g, c.wanted) else g, WordReturns(g.bits))
    else if !blockTime then (g, WordReturns(g.bits))
    else (BlockWord(g, c), WordBlocks)
  }

  // xEventGroupSync up to where it blocks.
  function SyncWord(g: WordGroup, t: TaskId, toSet: bv32, wanted: bv32, blockTime: bool): (WordGroup, WordOutcome) {
    SyncTo(g, g.bits | toSet, t, wanted, blockTime)
  }

  function SyncTo(g: WordGroup, both: bv32, t: TaskId, wanted: bv32, blockTime: bool): (WordGroup, WordOutcome) {
    SyncAfter(SetTo(g, both), both, t, wanted, blockTime)
  }

  // The rest of it, `both` the bits before with those set.
  function SyncAfter(g: WordGroup, both: bv32, t: TaskId, wanted: bv32, blockTime: bool): (WordGroup, WordOutcome) {
    if MatchFound(wanted, true, both) then (ClearBitsWord(g, wanted), WordReturns(both))
    else if !blockTime then (g, WordReturns(g.bits))
    else (BlockWord(g, WordCall(t, wanted, true, true)), WordBlocks)
  }

  // The block time is over: the item leaves the list with the value it waited with.
  function TimeOutWord(g: WordGroup, i: nat): WordGroup
    requires i < |g.waiting|
  {
    g.(waiting := g.waiting[..i] + g.waiting[i + 1..], values := g.values[g.waiting[i].task := g.waiting[i].word])
  }

  // The part of xEventGroupWaitBits and xEventGroupSync after the block. The mark in the item value tells whether the
  // bits came or the time went.
  function ResumeWord(g: WordGroup, t: TaskId, c: WordCall): (WordGroup, bv32)
    requires t in g.values
  {
    var rest := g.(values := g.values - {t});
    if Marked(g.values[t]) then (rest, WantedBits(g.values[t]))
    else (if MatchFound(c.wanted, c.all, g.bits) && c.clear then ClearBitsWord(rest, c.wanted) else rest,
          WantedBits(g.bits))
  }

  // ----- what the words stand for

  ghost function WaiterOf(item: WordItem): Waiter {
    Waiter(item.task, BitsOf(WantedBits(item.word)), ClearsOnExit(item.word), WantsAll(item.word))
  }

  ghost function WaitersOf(items: seq<WordItem>): seq<Waiter> {
    seq(|items|, i requires 0 <= i < |items| => WaiterOf(items[i]))
  }

  ghost function ValueOf(word: bv32): ItemValue {
    if Marked(word) then Unblocked(BitsOf(WantedBits(word))) else TimedOut
  }

  ghost function ValuesOf(words: map<TaskId, bv32>): map<TaskId, ItemValue> {
    map t | t in words :: ValueOf(words[t])
  }

  ghost function GroupOf(g: WordGroup): Group {
    Group(BitsOf(g.bits), WaitersOf(g.waiting), ValuesOf(g.values))
  }

  ghost function CallOf(c: WordCall): Waiter {
    Waiter(c.task, BitsOf(c.wanted), c.clear, c.all)
  }

  ghost function OutcomeOf(outcome: WordOutcome): Outcome {
    match outcome
    case WordReturns(value) => Returns(BitsOf(value))
    case WordBlocks => Blocks
  }

  // No control bits among the event bits, and no mark on an item that waits.
  ghost predicate Clean(g: WordGroup) {
    NoControl(g.bits) && forall i :: 0 <= i < |g.waiting| ==> !Marked(g.waiting[i].word)
  }

  // An operation on words comes to what the operation on sets does.
  ghost predicate ComesTo(r: (WordGroup, WordOutcome), expected: (Group, Outcome)) {
    Clean(r.0) && (GroupOf(r.0), OutcomeOf(r.1)) == expected
  }

  // ----- each operation

  lemma MatchesExactly(item: WordItem, bits: bv32)
    ensures WordMatches(item.word, bits) <==> Satisfied(BitsOf(bits), WaiterOf(item))
  {
    MatchIsMet(WantedBits(item.word), WantsAll(item.word), bits);
  }

  lemma WaitersCons(items: seq<WordItem>)
    requires items != []
    ensures WaitersOf(items) == [WaiterOf(items[0])] + WaitersOf(items[1..])
  {
  }

  lemma {:induction false} LeftOf(items: seq<WordItem>, bits: bv32)
    ensures WaitersOf(LeftWords(items, bits)) == Left(WaitersOf(items), BitsOf(bits))
    ensures forall item :: item in LeftWords(items, bits) ==> item in items
  {
    if items != [] {
      LeftOf(items[1..], bits);
      WaitersCons(items);
      MatchesExactly(items[0], bits);
      if !WordMatches(items[0].word, bits) {
        WaitersCons(LeftWords(items, bits));
      }
    }
  }

  lemma {:induction false} ClearMaskOf(items: seq<WordItem>, bits: bv32)
    ensures BitsOf(ClearWord(items, bits)) == ClearMask(WaitersOf(items), BitsOf(bits))
  {
    if items == [] {
      NoBitIsZero(0);
    } else {
      var first := if WordMatches(items[0].word, bits) && ClearsOnExit(items[0].word)
                   then WantedBits(items[0].word) else 0;
      ClearMaskOf(items[1..], bits);
      WaitersCons(items);
      MatchesExactly(items[0], bits);
      NoBitIsZero(0);
      OrIsUnion(first, ClearWord(items[1..], bits));
    }
  }

  lemma {:induction false} WokenOf(items: seq<WordItem>, bits: bv32, values: map<TaskId, bv32>)
    requires NoControl(bits)
    ensures ValuesOf(WokenWords(items, bits, values)) == Woken(WaitersOf(items), BitsOf(bits), ValuesOf(values))
  {
    if items != [] {
      var t := items[0].task;
      WaitersCons(items);
      MatchesExactly(items[0], bits);
      if WordMatches(items[0].word, bits) {
        NoControlExactly(bits);
        WokenUnpacks(bits);
        assert ValuesOf(values[t := WokenWord(bits)]) == ValuesOf(values)[t := Unblocked(BitsOf(bits))];
        WokenOf(items[1..], bits, values[t := WokenWord(bits)]);
      } else {
        WokenOf(items[1..], bits, values);
      }
    }
  }

  lemma SetToInWords(g: WordGroup, bits: bv32, toSet: Bits)
    requires NoControl(bits) && BitsOf(bits) == BitsOf(g.bits) + toSet
    ensures GroupOf(SetTo(g, bits)) == SetBits(GroupOf(g), toSet)
  {
    LeftOf(g.waiting, bits);
    ClearMaskOf(g.waiting, bits);
    AndNotIsDifference(bits, ClearWord(g.waiting, bits));
    WokenOf(g.waiting, bits, g.values);
  }

  lemma SetToIsClean(g: WordGroup, bits: bv32)
    requires Clean(g) && NoControl(bits)
    ensures Clean(SetTo(g, bits))
  {
    ClearedHasNoControl(bits, ClearWord(g.waiting, bits));
    LeftIsClean(g, bits);
  }

  // Setting bits.
  lemma SetInWords(g: WordGroup, toSet: bv32)
    requires Clean(g) && NoControl(toSet)
    ensures GroupOf(SetWord(g, toSet)) == SetBits(GroupOf(g), BitsOf(toSet)) && Clean(SetWord(g, toSet))
  {
    OrIsUnion(g.bits, toSet);
    JoinedHasNoControl(g.bits, toSet);
    SetToInWords(g, g.bits | toSet, BitsOf(toSet));
    SetToIsClean(g, g.bits | toSet);
  }

  // A bit of the word is set after a set exactly when it was or was to be set, and no item that goes clears it.
  lemma SetWordExactly(g: WordGroup, toSet: bv32, m: Bit)
    requires Clean(g) && NoControl(toSet)
    ensures m in BitsOf(SetWord(g, toSet).bits) <==>
      && (m in BitsOf(g.bits) || m in BitsOf(toSet))
      && !ClearedOnExit(WaitersOf(g.waiting), BitsOf(g.bits) + BitsOf(toSet), m)
  {
    SetInWords(g, toSet);
    SetBitsExactly(GroupOf(g), BitsOf(toSet), m);
  }

  lemma LeftIsClean(g: WordGroup, bits: bv32)
    requires Clean(g)
    ensures forall i :: 0 <= i < |LeftWords(g.waiting, bits)| ==> !Marked(LeftWords(g.waiting, bits)[i].word)
  {
    LeftOf(g.waiting, bits);
    forall i | 0 <= i < |LeftWords(g.waiting, bits)| ensures !Marked(LeftWords(g.waiting, bits)[i].word) {
      assert LeftWords(g.waiting, bits)[i] in g.waiting;
    }
  }

  lemma ClearInWords(g: WordGroup, clear: bv32)
    requires Clean(g)
    ensures GroupOf(ClearBitsWord(g, clear)) == ClearBits(GroupOf(g), BitsOf(clear)) && Clean(ClearBitsWord(g, clear))
  {
    AndNotIsDifference(g.bits, clear);
    ClearedHasNoControl(g.bits, clear);
  }

  lemma BlockInWords(g: WordGroup, c: WordCall)
    requires Clean(g) && NoControl(c.wanted)
    ensures GroupOf(BlockWord(g, c)) == Block(GroupOf(g), CallOf(c)) && Clean(BlockWord(g, c))
  {
    NoControlExactly(c.wanted);
    ItemUnpacks(c.wanted, c.clear, c.all);
    var item := WordItem(c.task, ItemWord(c.wanted, c.clear, c.all));
    assert WaiterOf(item) == CallOf(c);
    assert WaitersOf(g.waiting + [item]) == WaitersOf(g.waiting) + [CallOf(c)];
  }

  lemma WaitInWords(g: WordGroup, c: WordCall, blockTime: bool)
    requires Clean(g) && NoControl(c.wanted)
    ensures ComesTo(WaitWord(g, c, blockTime), WaitBits(GroupOf(g), CallOf(c), blockTime))
  {
    MatchIsMet(c.wanted, c.all, g.bits);
    LastLookInWords(g, c);
    BlockInWords(g, c);
  }

  lemma SyncInWords(g: WordGroup, t: TaskId, toSet: bv32, wanted: bv32, blockTime: bool)
    requires Clean(g) && NoControl(toSet) && NoControl(wanted)
    ensures ComesTo(SyncWord(g, t, toSet, wanted, blockTime),
                    Sync(GroupOf(g), t, BitsOf(toSet), BitsOf(wanted), blockTime))
  {
    OrIsUnion(g.bits, toSet);
    JoinedHasNoControl(g.bits, toSet);
    SyncToInWords(g, g.bits | toSet, t, BitsOf(toSet), wanted, blockTime);
  }

  lemma SyncToInWords(g: WordGroup, both: bv32, t: TaskId, toSet: Bits, wanted: bv32, blockTime: bool)
    requires Clean(g) && NoControl(wanted) && NoControl(both) && BitsOf(both) == BitsOf(g.bits) + toSet
    ensures ComesTo(SyncTo(g, both, t, wanted, blockTime), Sync(GroupOf(g), t, toSet, BitsOf(wanted), blockTime))
  {
    SetToInWords(g, both, toSet);
    SetToIsClean(g, both);
    SyncFrom(GroupOf(g), SetTo(g, both), both, t, toSet, wanted, blockTime);
  }

  lemma SyncFrom(
    g: Group, after: WordGroup, both: bv32, t: TaskId, toSet: Bits, wanted: bv32, blockTime: bool)
    requires Clean(after) && NoControl(wanted)
    requires GroupOf(after) == SetBits(g, toSet) && BitsOf(both) == g.bits + toSet
    ensures ComesTo(SyncAfter(after, both, t, wanted, blockTime), Sync(g, t, toSet, BitsOf(wanted), blockTime))
  {
    SyncAfterInWords(after, both, t, wanted, blockTime);
    SyncIs(g, GroupOf(after), BitsOf(both), t, toSet, BitsOf(wanted), blockTime);
  }

  // What xEventGroupSync does on the sets of bits once its own are set.
  ghost function SyncRest(g: Group, both: Bits, t: TaskId, wanted: Bits, blockTime: bool): (Group, Outcome) {
    if wanted <= both then (ClearBits(g, wanted), Returns(both))
    else if !blockTime then (g, Returns(g.bits))
    else (Block(g, Waiter(t, wanted, true, true)), Blocks)
  }

  lemma SyncIs(g: Group, after: Group, both: Bits, t: TaskId, toSet: Bits, wanted: Bits, blockTime: bool)
    requires after == SetBits(g, toSet) && both == g.bits + toSet
    ensures Sync(g, t, toSet, wanted, blockTime) == SyncRest(after, both, t, wanted, blockTime)
  {
  }

  lemma SyncAfterInWords(g: WordGroup, both: bv32, t: TaskId, wanted: bv32, blockTime: bool)
    requires Clean(g) && NoControl(wanted)
    ensures ComesTo(SyncAfter(g, both, t, wanted, blockTime),
                    SyncRest(GroupOf(g), BitsOf(both), t, BitsOf(wanted), blockTime))
  {
    MatchIsMet(wanted, true, both);
    ClearInWords(g, wanted);
    BlockInWords(g, WordCall(t, wanted, true, true));
  }

  // The item that leaves with a timeout carries no mark.
  lemma TimeOutInWords(g: WordGroup, i: nat)
    requires Clean(g) && i < |g.waiting|
    ensures GroupOf(TimeOutWord(g, i)) == TimeOut(GroupOf(g), i) && Clean(TimeOutWord(g, i))
  {
    var item, w := g.waiting[i], TimeOutWord(g, i);
    assert !Marked(item.word);
    assert WaitersOf(w.waiting) == WaitersOf(g.waiting)[..i] + WaitersOf(g.waiting)[i + 1..];
    assert ValuesOf(w.values) == ValuesOf(g.values)[item.task := TimedOut];
  }

  lemma ResumeInWords(g: WordGroup, t: TaskId, c: WordCall)
    requires Clean(g) && t in g.values
    ensures var (w, value) := ResumeWord(g, t, c);
            Clean(w) && (GroupOf(w), BitsOf(value)) == Resume(GroupOf(g), t, CallOf(c))
  {
    if Marked(g.values[t]) {
      WithoutValue(g, t);
    } else {
      LastLookInWords(g.(values := g.values - {t}), c);
      WithoutValue(g, t);
      NoControlExactly(g.bits);
      WantedIsAll(g.bits);
    }
  }

  lemma WithoutValue(g: WordGroup, t: TaskId)
    ensures GroupOf(g.(values := g.values - {t})) == GroupOf(g).(values := GroupOf(g).values - {t})
  {
    assert ValuesOf(g.values - {t}) == ValuesOf(g.values) - {t};
  }

  // The second look after a timeout.
  lemma LastLookInWords(g: WordGroup, c: WordCall)
    requires Clean(g)
    ensures var w := if MatchFound(c.wanted, c.all, g.bits) && c.clear then ClearBitsWord(g, c.wanted) else g;
            Clean(w) && GroupOf(w) == if Satisfied(BitsOf(g.bits), CallOf(c)) && c.clear
                                      then ClearBits(GroupOf(g), BitsOf(c.wanted)) else GroupOf(g)
  {
    MatchIsMet(c.wanted, c.all, g.bits);
    ClearInWords(g, c.wanted);
  }

  // ----- whole runs

  datatype WordState = WordState(group: WordGroup, calls: map<TaskId, WordCall>)

  datatype WordEvent =
    | SetEvent(toSet: bv32)
    | ClearEvent(clear: bv32)
    | WaitEvent(call: WordCall, blockTime: bool)
    | SyncEvent(t: TaskId, toSet: bv32, wanted: bv32, blockTime: bool)
    | ExpireEvent(i: nat)
    | RunAgainEvent(t: TaskId)

  ghost function StateOf(s: WordState): State {
    State(GroupOf(s.group), CallsOf(s.calls))
  }

  ghost function CallsOf(calls: map<TaskId, WordCall>): map<TaskId, Waiter> {
    map t | t in calls :: CallOf(calls[t])
  }

  ghost function EventOf(e: WordEvent): Event {
    match e
    case SetEvent(toSet) => Set(BitsOf(toSet))
    case ClearEvent(clear) => Clear(BitsOf(clear))
    case WaitEvent(call, blockTime) => Wait(CallOf(call), blockTime)
    case SyncEvent(t, toSet, wanted, blockTime) => Rendezvous(t, BitsOf(toSet), BitsOf(wanted), blockTime)
    case ExpireEvent(i) => Expire(i)
    case RunAgainEvent(t) => RunAgain(t)
  }

  ghost function EventsOf(run: seq<WordEvent>): seq<Event> {
    seq(|run|, i requires 0 <= i < |run| => EventOf(run[i]))
  }

  // What the asserts of the operations ask of the words they are given.
  ghost predicate WordEnabled(s: WordState, e: WordEvent) {
    match e
    case SetEvent(toSet) => NoControl(toSet)
    case ClearEvent(clear) => NoControl(clear)
    case WaitEvent(call, _) => call.task !in s.calls && call.wanted != 0 && NoControl(call.wanted)
    case SyncEvent(t, toSet, wanted, _) => t !in s.calls && wanted != 0 && NoControl(wanted) && NoControl(toSet)
    case ExpireEvent(i) => i < |s.group.waiting|
    case RunAgainEvent(t) => t in s.group.values && t in s.calls
  }

  // After a call that returns or blocks.
  function Called(s: WordState, r: (WordGroup, WordOutcome), c: WordCall): WordState {
    WordState(r.0, if r.1.WordBlocks? then s.calls[c.task := c] else s.calls)
  }

  ghost function WordNext(s: WordState, e: WordEvent): WordState
    requires WordEnabled(s, e)
  {
    match e
    case SetEvent(toSet) => s.(group := SetWord(s.group, toSet))
    case ClearEvent(clear) => s.(group := ClearBitsWord(s.group, clear))
    case WaitEvent(call, blockTime) => Called(s, WaitWord(s.group, call, blockTime), call)
    case SyncEvent(t, toSet, wanted, blockTime) =>
      Called(s, SyncWord(s.group, t, toSet, wanted, blockTime), WordCall(t, wanted, true, true))
    case ExpireEvent(i) => s.(group := TimeOutWord(s.group, i))
    case RunAgainEvent(t) => WordState(ResumeWord(s.group, t, s.calls[t]).0, s.calls - {t})
  }

  lemma CallsInWords(calls: map<TaskId, WordCall>, t: TaskId, c: WordCall)
    ensures CallsOf(calls[t := c]) == CallsOf(calls)[t := CallOf(c)] && CallsOf(calls - {t}) == CallsOf(calls) - {t}
  {
  }

  lemma CalledInWords(s: WordState, r: (WordGroup, WordOutcome), expected: (Group, Outcome), c: WordCall)
    requires ComesTo(r, expected)
    ensures var calls := CallsOf(s.calls);
            StateOf(Called(s, r, c))
            == State(expected.0, if expected.1.Blocks? then calls[c.task := CallOf(c)] else calls)
    ensures Clean(Called(s, r, c).group)
  {
    CallsInWords(s.calls, c.task, c);
  }

  lemma WaitStepInWords(s: WordState, c: WordCall, blockTime: bool)
    requires Clean(s.group) && WordEnabled(s, WaitEvent(c, blockTime))
    ensures var e, w := WaitEvent(c, blockTime), WordNext(s, WaitEvent(c, blockTime));
            Enabled(StateOf(s), EventOf(e)) && Clean(w.group) && StateOf(w) == Next(StateOf(s), EventOf(e))
  {
    NoBitIsZero(c.wanted);
    WaitInWords(s.group, c, blockTime);
    CalledInWords(s, WaitWord(s.group, c, blockTime), WaitBits(GroupOf(s.group), CallOf(c), blockTime), c);
  }

  lemma SyncStepInWords(s: WordState, t: TaskId, toSet: bv32, wanted: bv32, blockTime: bool)
    requires Clean(s.group) && WordEnabled(s, SyncEvent(t, toSet, wanted, blockTime))
    ensures var e := SyncEvent(t, toSet, wanted, blockTime);
            var w := WordNext(s, e);
            Enabled(StateOf(s), EventOf(e)) && Clean(w.group) && StateOf(w) == Next(StateOf(s), EventOf(e))
  {
    NoBitIsZero(wanted);
    SyncInWords(s.group, t, toSet, wanted, blockTime);
    var r := Sync(GroupOf(s.group), t, BitsOf(toSet), BitsOf(wanted), blockTime);
    CalledInWords(s, SyncWord(s.group, t, toSet, wanted, blockTime), r, WordCall(t, wanted, true, true));
  }

  lemma RunAgainInWords(s: WordState, t: TaskId)
    requires Clean(s.group) && WordEnabled(s, RunAgainEvent(t))
    ensures var w := WordNext(s, RunAgainEvent(t));
            Enabled(StateOf(s), RunAgain(t)) && Clean(w.group) && StateOf(w) == Next(StateOf(s), RunAgain(t))
  {
    ResumeInWords(s.group, t, s.calls[t]);
    CallsInWords(s.calls, t, s.calls[t]);
  }

  lemma StepInWords(s: WordState, e: WordEvent)
    requires Clean(s.group) && WordEnabled(s, e)
    ensures Enabled(StateOf(s), EventOf(e)) && Clean(WordNext(s, e).group)
    ensures StateOf(WordNext(s, e)) == Next(StateOf(s), EventOf(e))
  {
    match e
    case SetEvent(toSet) => SetInWords(s.group, toSet);
    case ClearEvent(clear) => ClearInWords(s.group, clear);
    case WaitEvent(call, blockTime) => WaitStepInWords(s, call, blockTime);
    case SyncEvent(t, toSet, wanted, blockTime) => SyncStepInWords(s, t, toSet, wanted, blockTime);
    case ExpireEvent(i) => TimeOutInWords(s.group, i);
    case RunAgainEvent(t) => RunAgainInWords(s, t);
  }

  ghost predicate WordRunAllowed(s: WordState, run: seq<WordEvent>)
    decreases |run|
  {
    run != [] ==> WordEnabled(s, run[0]) && WordRunAllowed(WordNext(s, run[0]), run[1..])
  }

  ghost function WordRun(s: WordState, run: seq<WordEvent>): WordState
    requires WordRunAllowed(s, run)
    decreases |run|
  {
    if run == [] then s else WordRun(WordNext(s, run[0]), run[1..])
  }

  function WordCreated(): WordState {
    WordState(WordGroup(0, [], map[]), map[])
  }

  lemma CreatedInWords()
    ensures StateOf(WordCreated()) == Created() && Clean(WordCreated().group)
  {
    NoBitIsZero(0);
  }

  // A run on words is the run on the sets of bits they stand for.
  lemma {:induction false} RunInWords(s: WordState, run: seq<WordEvent>)
    requires Clean(s.group) && WordRunAllowed(s, run)
    ensures RunAllowed(StateOf(s), EventsOf(run)) && Clean(WordRun(s, run).group)
    ensures StateOf(WordRun(s, run)) == Run(StateOf(s), EventsOf(run))
    decreases |run|
  {
    if run != [] {
      StepInWords(s, run[0]);
      RunInWords(WordNext(s, run[0]), run[1..]);
      assert EventsOf(run)[1..] == EventsOf(run[1..]) && EventsOf(run)[0] == EventOf(run[0]);
    }
  }

  // In every run a task that is to run again finds the mark in its item exactly when it was woken for its bits, not
  // when its time was over; what it returns is what EventGroups says.
  lemma MarkTellsWakeUpFromTimeOut(run: seq<WordEvent>, t: TaskId)
    requires WordRunAllowed(WordCreated(), run) && t in WordRun(WordCreated(), run).group.values
    ensures RunAllowed(Created(), EventsOf(run))
    ensures var s, r := WordRun(WordCreated(), run), Run(Created(), EventsOf(run));
            && t in r.group.values && t in s.calls && t in r.calls
            && (Marked(s.group.values[t]) <==> r.group.values[t].Unblocked?)
            && BitsOf(ResumeWord(s.group, t, s.calls[t]).1) == Resume(r.group, t, r.calls[t]).1
  {
    CreatedInWords();
    RunInWords(WordCreated(), run);
    RunKeeps(Created(), EventsOf(run));
    ResumeInWords(WordRun(WordCreated(), run).group, t, WordRun(WordCreated(), run).calls[t]);
  }

  // In every run on words no task waits for bits that are there.
  lemma NobodyWaitsInVainInWords(run: seq<WordEvent>, item: WordItem)
    requires WordRunAllowed(WordCreated(), run) && item in WordRun(WordCreated(), run).group.waiting
    ensures !WordMatches(item.word, WordRun(WordCreated(), run).group.bits)
  {
    var g := WordRun(WordCreated(), run).group;
    CreatedInWords();
    RunInWords(WordCreated(), run);
    RunKeeps(Created(), EventsOf(run));
    MatchesExactly(item, g.bits);
    var i :| 0 <= i < |g.waiting| && g.waiting[i] == item;
    assert WaitersOf(g.waiting)[i] == WaiterOf(item);
  }

  // And one that was woken returns bits for which its call was waiting.
  lemma WokenReturnsItsBits(run: seq<WordEvent>, t: TaskId)
    requires WordRunAllowed(WordCreated(), run) && t in WordRun(WordCreated(), run).group.values
    requires Marked(WordRun(WordCreated(), run).group.values[t])
    ensures var s := WordRun(WordCreated(), run);
            t in s.calls && MatchFound(s.calls[t].wanted, s.calls[t].all, ResumeWord(s.group, t, s.calls[t]).1)
  {
    var s := WordRun(WordCreated(), run);
    MarkTellsWakeUpFromTimeOut(run, t);
    NobodyWaitsInVain(EventsOf(run), t);
    CreatedInWords();
    RunInWords(WordCreated(), run);
    MatchIsMet(s.calls[t].wanted, s.calls[t].all, ResumeWord(s.group, t, s.calls[t]).1);
  }
}
