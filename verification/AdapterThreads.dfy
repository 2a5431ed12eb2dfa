/** Threads that share one adapter object, statement by statement under its lock. */
module AdapterThreads {
  import opened Prelude
  import opened Domain
  import opened MetaAdapter
  import opened FaultInjection

  datatype Call =
    | Listing(account: string)
    | Creating(account: string, input: MetaInput)
    | Seeding(account: string, pixels: seq<MetaPixel>)

  datatype Answer = Listed(pixels: seq<MetaPixel>) | Made(conversion: CustomConversion) | Stored | Refused(error: MetaError)

  /** The next statement of a thread. A call takes the lock for the counter, releases it, and
      takes it again for its body; seeding has no counter. */
  datatype Pc =
    | Called
    | Reading
    | Adding(seen: nat)
    | Noting
    | Noted(number: nat)
    | Judging(number: nat)
    | Ready
    | Starting
    | Searching
    | WritingId(conversion: CustomConversion)
    | WritingName(conversion: CustomConversion)
    | Leaving(answer: Answer)
    | Answering(answer: Answer)

  datatype Thread = Thread(call: Call, pc: Pc)

  /** What can be seen of a run, in order: a call is made, counted, takes effect, is answered. */
  datatype Mark =
    | Invoked(thread: nat, call: Call)
    | Took(thread: nat, number: nat)
    | Ran(thread: nat, call: Call, answer: Answer)
    | Answered(thread: nat, answer: Answer)

  datatype World = World(meta: MetaState, counter: nat, lock: Option<nat>, threads: map<nat, Thread>, history: seq<Mark>)

  const NO_META := MetaState(map[], map[], map[])
  const NEW_WORLD := World(NO_META, 0, None, map[], [])

  /** A thread calls, or does its next statement. */
  datatype Event = Invoke(thread: nat, call: Call) | Go(thread: nat)

  predicate Holds(pc: Pc) {
    pc.Reading? || pc.Adding? || pc.Noting? || pc.Noted? || pc.Starting? || pc.Searching?
    || pc.WritingId? || pc.WritingName? || pc.Leaving?
  }

  function SlotOf(call: Call): Slot
    requires call.Creating?
  {
    (call.account, call.input.columns.name)
  }

  /** How far the calls of one thread are, read off its marks alone. */
  datatype Phase = Idle | Pending(call: Call) | Ticketed(call: Call, number: nat) | Decided(call: Call, answer: Answer)

  function NextPhase(phase: Phase, mark: Mark): Phase {
    match mark
    case Invoked(_, call) => Pending(call)
    case Took(_, number) => if phase.Pending? then Ticketed(phase.call, number) else phase
    case Ran(_, call, answer) => Decided(call, answer)
    case Answered(_, _) => Idle
  }

  function PhaseOf(history: seq<Mark>, thread: nat): Phase {
    if history == [] then Idle
    else
      var before := PhaseOf(history[..|history| - 1], thread);
      var mark := history[|history| - 1];
      if mark.thread == thread then NextPhase(before, mark) else before
  }

  lemma PhaseSnoc(history: seq<Mark>, mark: Mark, thread: nat)
    ensures PhaseOf(history + [mark], thread)
         == if mark.thread == thread then NextPhase(PhaseOf(history, thread), mark) else PhaseOf(history, thread)
  {
    assert (history + [mark])[..|history|] == history;
  }

  /** The two indexes and the counter of one caller after another, and whether all answers
      were those that it would get. */
  datatype Sequential = Sequential(meta: MetaState, counter: nat, right: bool)

  datatype Adapter = Adapter(digest: string -> string, settings: Settings) {

    // ----- Statements -----

    function At(w: World, thread: nat, call: Call, pc: Pc): World {
      w.(threads := w.threads[thread := Thread(call, pc)])
    }

    function Acquire(w: World, thread: nat, call: Call, pc: Pc): World {
      if w.lock.None? then At(w.(lock := Some(thread)), thread, call, pc) else w
    }

    function Release(w: World, mark: Mark, call: Call, pc: Pc): World {
      At(w.(lock := None, history := w.history + [mark]), mark.thread, call, pc)
    }

    function NewConversion(call: Call): CustomConversion
      requires call.Creating?
    {
      CustomConversion(StableId(digest, SlotOf(call)), call.input.pixelId, call.input.columns)
    }

    function FirstStatement(w: World, thread: nat, call: Call): World {
      match call
      case Listing(account) => At(w, thread, call, Leaving(Listed(PixelsOf(w.meta, account))))
      case Seeding(account, pixels) =>
        At(w.(meta := w.meta.(pixels := w.meta.pixels[account := pixels])), thread, call, Leaving(Stored))
      case Creating(account, input) =>
        At(w, thread, call, if HasPixel(w.meta, account, input.pixelId) then Searching else Leaving(Refused(UnknownPixel)))
    }

    function Search(w: World, thread: nat, call: Call): World {
      if !call.Creating? then w
      else if SlotOf(call) in w.meta.byName then At(w, thread, call, Leaving(Made(w.meta.byName[SlotOf(call)])))
      else At(w, thread, call, WritingId(NewConversion(call)))
    }

    function WriteName(w: World, thread: nat, call: Call, c: CustomConversion): World {
      if !call.Creating? then w
      else At(w.(meta := w.meta.(byName := w.meta.byName[SlotOf(call) := c])), thread, call, Leaving(Made(c)))
    }

    function Statement(w: World, thread: nat, call: Call, pc: Pc): World {
      match pc
      case Called => Acquire(w, thread, call, Reading)
      case Reading => At(w, thread, call, Adding(w.counter))
      case Adding(seen) => At(w.(counter := seen + 1), thread, call, Noting)
      case Noting => At(w, thread, call, Noted(w.counter))
      case Noted(number) => Release(w, Took(thread, number), call, Judging(number))
      case Judging(number) =>
        At(w, thread, call, if settings.Faulted(number) then Answering(Refused(RateLimited)) else Ready)
      case Ready => Acquire(w, thread, call, Starting)
      case Starting => FirstStatement(w, thread, call)
      case Searching => Search(w, thread, call)
      case WritingId(c) => At(w.(meta := w.meta.(byId := w.meta.byId[c.id := c])), thread, call, WritingName(c))
      case WritingName(c) => WriteName(w, thread, call, c)
      case Leaving(answer) => Release(w, Ran(thread, call, answer), call, Answering(answer))
      case Answering(answer) => w.(threads := w.threads - {thread}, history := w.history + [Answered(thread, answer)])
    }

    /** Events that cannot happen (a thread inside two calls, or inside none) change nothing. */
    function Step(w: World, e: Event): World {
      match e
      case Invoke(thread, call) =>
        if thread in w.threads then w
        else
          At(w.(history := w.history + [Invoked(thread, call)]), thread, call, if call.Seeding? then Ready else Called)
      case Go(thread) =>
        if thread !in w.threads then w else Statement(w, thread, w.threads[thread].call, w.threads[thread].pc)
    }

    function Run(events: seq<Event>): World {
      if events == [] then NEW_WORLD
      else Step(Run(events[..|events| - 1]), events[|events| - 1])
    }

    // ----- One caller after another -----

    /** The body of a call in one go. */
    function Body(m: MetaState, call: Call): (MetaState, Answer) {
      match call
      case Listing(account) => (m, Listed(PixelsOf(m, account)))
      case Seeding(account, pixels) => (m.(pixels := m.pixels[account := pixels]), Stored)
      case Creating(account, input) =>
        var (m', r) := Create(digest, m, account, input);
        (m', if r.Ok? then Made(r.value) else Refused(r.error))
    }

    function Replayed(q: Sequential, mark: Mark): Sequential {
      match mark
      case Took(_, number) => Sequential(q.meta, q.counter + 1, q.right && number == q.counter + 1)
      case Ran(_, call, answer) => Sequential(Body(q.meta, call).0, q.counter, q.right && Body(q.meta, call).1 == answer)
      case _ => q
    }

    function Replay(history: seq<Mark>): Sequential {
      if history == [] then Sequential(NO_META, 0, true)
      else Replayed(Replay(history[..|history| - 1]), history[|history| - 1])
    }

    lemma ReplaySnoc(history: seq<Mark>, mark: Mark)
      ensures Replay(history + [mark]) == Replayed(Replay(history), mark)
    {
      assert (history + [mark])[..|history|] == history;
    }

    /** The marks of a call come in order, and only a call that was not faulted takes effect. */
    predicate Legal(phase: Phase, mark: Mark) {
      match mark
      case Invoked(_, _) => phase.Idle?
      case Took(_, _) => phase.Pending? && !phase.call.Seeding?
      case Ran(_, call, _) => MayRun(phase, call)
      case Answered(_, answer) =>
        || (phase.Decided? && phase.answer == answer)
        || (phase.Ticketed? && settings.Faulted(phase.number) && answer == Refused(RateLimited))
    }

    predicate MayRun(phase: Phase, call: Call) {
      || (phase == Pending(call) && call.Seeding?)
      || (phase.Ticketed? && phase.call == call && !settings.Faulted(phase.number))
    }

    predicate Orderly(history: seq<Mark>) {
      history == []
      || (Orderly(history[..|history| - 1])
          && Legal(PhaseOf(history[..|history| - 1], history[|history| - 1].thread), history[|history| - 1]))
    }

    lemma OrderlySnoc(history: seq<Mark>, mark: Mark)
      requires Orderly(history) && Legal(PhaseOf(history, mark.thread), mark)
      ensures Orderly(history + [mark])
    {
      assert (history + [mark])[..|history|] == history;
    }

    // ----- The invariant -----

    /** What the holder of the lock has done to memory since it took it. */
    predicate Memory(q: Sequential, meta: MetaState, counter: nat, call: Call, pc: Pc) {
      match pc
      case Reading => meta == q.meta && counter == q.counter
      case Adding(seen) => meta == q.meta && counter == q.counter == seen
      case Noting => meta == q.meta && counter == q.counter + 1
      case Noted(number) => meta == q.meta && counter == q.counter + 1 == number
      case Starting => meta == q.meta && counter == q.counter
      case Searching => meta == q.meta && counter == q.counter && Found(q.meta, call)
      case WritingId(c) => meta == q.meta && counter == q.counter && Absent(q.meta, call, c)
      case WritingName(c) => meta == q.meta.(byId := q.meta.byId[c.id := c]) && counter == q.counter && Absent(q.meta, call, c)
      case Leaving(answer) => (meta, answer) == Body(q.meta, call) && counter == q.counter
      case _ => false
    }

    predicate Found(m: MetaState, call: Call) {
      call.Creating? && HasPixel(m, call.account, call.input.pixelId)
    }

    predicate Absent(m: MetaState, call: Call, c: CustomConversion) {
      Found(m, call) && SlotOf(call) !in m.byName && c == NewConversion(call)
    }

    /** Where a thread can be, given the marks it has left. */
    predicate Matches(phase: Phase, call: Call, pc: Pc) {
      match pc
      case Called => phase == Pending(call) && !call.Seeding?
      case Reading => phase == Pending(call) && !call.Seeding?
      case Adding(_) => phase == Pending(call) && !call.Seeding?
      case Noting => phase == Pending(call) && !call.Seeding?
      case Noted(_) => phase == Pending(call) && !call.Seeding?
      case Judging(number) => phase == Ticketed(call, number)
      case Answering(answer) => Legal(phase, Answered(0, answer))
      case _ => MayRun(phase, call)
    }

    predicate ThreadOk(w: World, thread: nat) {
      var phase := PhaseOf(w.history, thread);
      if thread in w.threads then Matches(phase, w.threads[thread].call, w.threads[thread].pc) else phase == Idle
    }

    predicate LockOk(w: World) {
      match w.lock
      case None => w.meta == Replay(w.history).meta && w.counter == Replay(w.history).counter
      case Some(holder) =>
        holder in w.threads
        && Memory(Replay(w.history), w.meta, w.counter, w.threads[holder].call, w.threads[holder].pc)
    }

    ghost predicate Sound(w: World) {
      && Replay(w.history).right && Orderly(w.history)
      && LockOk(w)
      && (forall thread :: thread in w.threads && Holds(w.threads[thread].pc) ==> w.lock == Some(thread))
      && (forall thread :: ThreadOk(w, thread))
    }

    /** A statement that leaves lock and marks alone; only the holder of the lock may touch memory. */
    lemma QuietStep(w: World, w': World, thread: nat, call: Call, pc: Pc, pc': Pc)
      requires Sound(w) && thread in w.threads && w.threads[thread] == Thread(call, pc)
      requires w' == w.(meta := w'.meta, counter := w'.counter, threads := w.threads[thread := Thread(call, pc')])
      requires Holds(pc') <==> Holds(pc)
      requires Matches(PhaseOf(w.history, thread), call, pc')
      requires if Holds(pc) then Memory(Replay(w.history), w'.meta, w'.counter, call, pc')
               else w'.meta == w.meta && w'.counter == w.counter
      ensures Sound(w')
    {
      forall other
        ensures ThreadOk(w', other)
      {
        assert ThreadOk(w, other);
      }
    }

    lemma AcquireStep(w: World, thread: nat, call: Call, pc: Pc, pc': Pc)
      requires Sound(w) && thread in w.threads && w.threads[thread] == Thread(call, pc) && w.lock.None?
      requires Matches(PhaseOf(w.history, thread), call, pc')
      requires Memory(Replay(w.history), w.meta, w.counter, call, pc')
      ensures Sound(Acquire(w, thread, call, pc'))
    {
      var w' := Acquire(w, thread, call, pc');
      forall other
        ensures ThreadOk(w', other)
      {
        assert ThreadOk(w, other);
      }
    }

    /** The marks of one thread do not move another. */
    lemma OthersStay(w: World, w': World, mark: Mark)
      requires forall thread :: ThreadOk(w, thread)
      requires w'.history == w.history + [mark]
      requires forall other :: other != mark.thread ==>
                 (other in w'.threads <==> other in w.threads) && (other in w.threads ==> w'.threads[other] == w.threads[other])
      requires ThreadOk(w', mark.thread)
      ensures forall thread :: ThreadOk(w', thread)
    {
      forall thread
        ensures ThreadOk(w', thread)
      {
        assert ThreadOk(w, thread);
        PhaseSnoc(w.history, mark, thread);
      }
    }

    lemma ReleaseStep(w: World, mark: Mark, call: Call, pc: Pc, pc': Pc)
      requires Sound(w) && mark.thread in w.threads && w.threads[mark.thread] == Thread(call, pc) && Holds(pc)
      requires Legal(PhaseOf(w.history, mark.thread), mark) && !Holds(pc')
      requires Replayed(Replay(w.history), mark) == Sequential(w.meta, w.counter, true)
      requires Matches(NextPhase(PhaseOf(w.history, mark.thread), mark), call, pc')
      ensures Sound(Release(w, mark, call, pc'))
    {
      var w' := Release(w, mark, call, pc');
      ReplaySnoc(w.history, mark);
      OrderlySnoc(w.history, mark);
      PhaseSnoc(w.history, mark, mark.thread);
      OthersStay(w, w', mark);
    }

    /** A call is made or answered. */
    lemma OutsideStep(w: World, w': World, mark: Mark)
      requires Sound(w) && (mark.Invoked? || mark.Answered?) && Legal(PhaseOf(w.history, mark.thread), mark)
      requires w' == w.(threads := w'.threads, history := w.history + [mark])
      requires w'.threads - {mark.thread} == w.threads - {mark.thread}
      requires mark.thread in w.threads ==> !Holds(w.threads[mark.thread].pc)
      requires mark.thread in w'.threads ==> !Holds(w'.threads[mark.thread].pc)
      requires var phase := NextPhase(PhaseOf(w.history, mark.thread), mark);
               if mark.thread in w'.threads then Matches(phase, w'.threads[mark.thread].call, w'.threads[mark.thread].pc)
               else phase == Idle
      ensures Sound(w')
    {
      forall other | other != mark.thread
        ensures (other in w'.threads <==> other in w.threads) && (other in w.threads ==> w'.threads[other] == w.threads[other])
      {
        assert other in w.threads <==> other in w.threads - {mark.thread};
        assert other in w'.threads <==> other in w'.threads - {mark.thread};
        if other in w.threads {
          assert (w.threads - {mark.thread})[other] == w.threads[other];
          assert (w'.threads - {mark.thread})[other] == w'.threads[other];
        }
      }
      if w.lock.Some? {
        assert Holds(w.threads[w.lock.value].pc);
      }
      ReplaySnoc(w.history, mark);
      OrderlySnoc(w.history, mark);
      PhaseSnoc(w.history, mark, mark.thread);
      OthersStay(w, w', mark);
    }

    lemma InvokeSound(w: World, thread: nat, call: Call)
      requires Sound(w) && thread !in w.threads
      ensures Sound(Step(w, Invoke(thread, call)))
    {
      var w' := Step(w, Invoke(thread, call));
      assert ThreadOk(w, thread);
      assert w'.threads - {thread} == w.threads - {thread};
      OutsideStep(w, w', Invoked(thread, call));
    }

    lemma AnswerSound(w: World, thread: nat, call: Call, answer: Answer)
      requires Sound(w) && thread in w.threads && w.threads[thread] == Thread(call, Answering(answer))
      ensures Sound(Statement(w, thread, call, Answering(answer)))
    {
      var w' := Statement(w, thread, call, Answering(answer));
      assert ThreadOk(w, thread);
      assert w'.threads - {thread} == w.threads - {thread};
      OutsideStep(w, w', Answered(thread, answer));
    }

    /** The statements that count the call. */
    lemma CountSound(w: World, thread: nat, call: Call, pc: Pc)
      requires Sound(w) && thread in w.threads && w.threads[thread] == Thread(call, pc)
      requires pc.Called? || pc.Reading? || pc.Adding? || pc.Noting? || pc.Noted? || pc.Judging?
      ensures Sound(Statement(w, thread, call, pc))
    {
      var w' := Statement(w, thread, call, pc);
      assert ThreadOk(w, thread);
      match pc
      case Called =>
        if w.lock.None? {
          AcquireStep(w, thread, call, pc, Reading);
        }
      case Reading => QuietStep(w, w', thread, call, pc, Adding(w.counter));
      case Adding(seen) => QuietStep(w, w', thread, call, pc, Noting);
      case Noting => QuietStep(w, w', thread, call, pc, Noted(w.counter));
      case Noted(number) => ReleaseStep(w, Took(thread, number), call, pc, Judging(number));
      case Judging(number) => QuietStep(w, w', thread, call, pc, w'.threads[thread].pc);
    }

    /** The statements that open and close the body. */
    lemma BodySound(w: World, thread: nat, call: Call, pc: Pc)
      requires Sound(w) && thread in w.threads && w.threads[thread] == Thread(call, pc)
      requires pc.Ready? || pc.Leaving?
      ensures Sound(Statement(w, thread, call, pc))
    {
      assert ThreadOk(w, thread);
      match pc
      case Ready =>
        if w.lock.None? {
          AcquireStep(w, thread, call, pc, Starting);
        }
      case Leaving(answer) => ReleaseStep(w, Ran(thread, call, answer), call, pc, Answering(answer));
    }

    /** Those under the lock that look something up or write it. */
    lemma MemorySound(w: World, thread: nat, call: Call, pc: Pc)
      requires Sound(w) && thread in w.threads && w.threads[thread] == Thread(call, pc)
      requires pc.Starting? || pc.Searching? || pc.WritingId? || pc.WritingName?
      ensures Sound(Statement(w, thread, call, pc))
    {
      var w' := Statement(w, thread, call, pc);
      assert ThreadOk(w, thread);
      match pc
      case Starting => QuietStep(w, w', thread, call, pc, w'.threads[thread].pc);
      case Searching => QuietStep(w, w', thread, call, pc, w'.threads[thread].pc);
      case WritingId(c) => QuietStep(w, w', thread, call, pc, WritingName(c));
      case WritingName(c) => QuietStep(w, w', thread, call, pc, Leaving(Made(c)));
    }

    lemma StepSound(w: World, e: Event)
      requires Sound(w)
      ensures Sound(Step(w, e))
    {
      if e.Invoke? {
        if e.thread !in w.threads {
          InvokeSound(w, e.thread, e.call);
        }
      } else if e.thread in w.threads {
        var Thread(call, pc) := w.threads[e.thread];
        if pc.Answering? {
          AnswerSound(w, e.thread, call, pc.answer);
        } else if pc.Called? || pc.Reading? || pc.Adding? || pc.Noting? || pc.Noted? || pc.Judging? {
          CountSound(w, e.thread, call, pc);
        } else if pc.Ready? || pc.Leaving? {
          BodySound(w, e.thread, call, pc);
        } else {
          MemorySound(w, e.thread, call, pc);
        }
      }
    }

    lemma {:induction false} RunSound(events: seq<Event>)
      ensures Sound(Run(events))
    {
      if events != [] {
        RunSound(events[..|events| - 1]);
        StepSound(Run(events[..|events| - 1]), events[|events| - 1]);
      }
    }

    // ----- What callers see -----

    lemma {:induction false} ReplayIndexed(history: seq<Mark>)
      ensures Indexed(digest, Replay(history).meta)
    {
      if history != [] {
        var q, mark := Replay(history[..|history| - 1]), history[|history| - 1];
        ReplayIndexed(history[..|history| - 1]);
        if mark.Ran? && mark.call.Creating? {
          CreateKeeps(digest, q.meta, mark.call.account, mark.call.input);
        }
      }
    }

    /** No two threads are ever inside the lock. */
    lemma MutualExclusion(events: seq<Event>, a: nat, b: nat)
      requires var w := Run(events);
               && a in w.threads && b in w.threads && Holds(w.threads[a].pc) && Holds(w.threads[b].pc)
      ensures a == b
    {
      RunSound(events);
    }

    /** Under every interleaving of statements the counts and answers are those of one caller
        after another, in the order the lock was released; and whenever the lock is free, memory
        is what that caller would have left, with consistent indexes. */
    lemma Linearizable(events: seq<Event>)
      ensures var w := Run(events);
              var q := Replay(w.history);
              && q.right
              && (w.lock.None? ==> w.meta == q.meta && w.counter == q.counter && Indexed(digest, w.meta))
    {
      RunSound(events);
      ReplayIndexed(Run(events).history);
    }

    /** The call that a thread is in, counted from its own mark on. */
    ghost predicate Since(history: seq<Mark>, from: nat, thread: nat, call: Call) {
      && from < |history| && history[from] == Invoked(thread, call)
      && forall k :: from < k < |history| && history[k].thread == thread ==> !history[k].Invoked? && !history[k].Answered?
    }

    /** What a phase says about the marks behind it. */
    lemma {:induction false} PhaseSince(history: seq<Mark>, thread: nat) returns (from: nat, took: nat, ran: nat)
      requires Orderly(history) && PhaseOf(history, thread) != Idle
      ensures Since(history, from, thread, PhaseOf(history, thread).call)
      ensures var phase := PhaseOf(history, thread);
              (phase.Ticketed? ==> from < took < |history| && history[took] == Took(thread, phase.number))
              && (phase.Decided? ==>
                    && from < ran < |history| && history[ran] == Ran(thread, phase.call, phase.answer)
                    && (!phase.call.Seeding? ==>
                          && from < took < ran && history[took].Took? && history[took].thread == thread
                          && !settings.Faulted(history[took].number)))
      ensures forall k :: from < k < |history| && history[k].thread == thread && history[k].Ran? ==>
                PhaseOf(history, thread).Decided? && k == ran
    {
      var last := |history| - 1;
      var init, mark := history[..last], history[last];
      from, took, ran := 0, 0, 0;
      if mark.thread == thread && mark.Invoked? {
        from := last;
      } else {
        from, took, ran := PhaseSince(init, thread);
        assert forall k :: 0 <= k < last ==> init[k] == history[k];
        if mark.thread == thread && mark.Took? {
          took := last;
        } else if mark.thread == thread && mark.Ran? {
          ran := last;
        }
      }
    }

    /** The call took effect once, with the answer it got, after it was counted and not faulted. */
    ghost predicate EffectBetween(history: seq<Mark>, i: nat, from: nat, took: nat, ran: nat)
      requires from < i < |history| && history[i].Answered? && history[from].Invoked?
    {
      var (thread, call) := (history[i].thread, history[from].call);
      && from < ran < i && history[ran] == Ran(thread, call, history[i].answer)
      && (forall k :: from < k < i && history[k].thread == thread && history[k].Ran? ==> k == ran)
      && (call.Seeding?
          || (from < took < ran && history[took].Took? && history[took].thread == thread
              && !settings.Faulted(history[took].number)))
    }

    /** The call was counted and faulted, and took no effect. */
    ghost predicate RefusalBetween(history: seq<Mark>, i: nat, from: nat, took: nat)
      requires from < i < |history| && history[i].Answered?
    {
      var thread := history[i].thread;
      && from < took < i && history[took].Took? && history[took].thread == thread
      && settings.Faulted(history[took].number) && history[i].answer == Refused(RateLimited)
      && (forall k :: from < k < i && history[k].thread == thread ==> !history[k].Ran?)
    }

    ghost predicate Between(history: seq<Mark>, i: nat, from: nat, took: nat, ran: nat)
      requires i < |history| && history[i].Answered?
    {
      && from < i && history[from].Invoked? && Since(history[..i], from, history[i].thread, history[from].call)
      && (EffectBetween(history, i, from, took, ran) || RefusalBetween(history, i, from, took))
    }

    lemma OrderlyBetween(history: seq<Mark>, i: nat) returns (from: nat, took: nat, ran: nat)
      requires Orderly(history) && i < |history| && history[i].Answered?
      ensures Between(history, i, from, took, ran)
    {
      OrderlyPrefix(history, i);
      from, took, ran := PhaseSince(history[..i], history[i].thread);
    }

    /** In real time: between the moment a call was made and the moment it was answered it took
        effect once, with that very answer, after it was counted and not faulted; or it was
        counted and faulted, and took no effect. */
    lemma AnsweredInBetween(events: seq<Event>, i: nat) returns (from: nat, took: nat, ran: nat)
      requires i < |Run(events).history| && Run(events).history[i].Answered?
      ensures Between(Run(events).history, i, from, took, ran)
    {
      RunSound(events);
      from, took, ran := OrderlyBetween(Run(events).history, i);
    }

    lemma {:induction false} OrderlyPrefix(history: seq<Mark>, i: nat)
      requires Orderly(history) && i < |history|
      ensures Orderly(history[..i]) && Legal(PhaseOf(history[..i], history[i].thread), history[i])
    {
      if i < |history| - 1 {
        OrderlyPrefix(history[..|history| - 1], i);
        assert history[..|history| - 1][..i] == history[..i];
      }
    }

    /** Creating calls that succeeded are answered from the name index for good. */
    predicate RecordedAt(m: MetaState, mark: Mark) {
      mark.Ran? && mark.call.Creating? && mark.answer.Made? ==>
        SlotOf(mark.call) in m.byName && m.byName[SlotOf(mark.call)] == mark.answer.conversion
    }

    lemma {:induction false} RightRecords(history: seq<Mark>, i: nat)
      requires Replay(history).right && i < |history|
      ensures RecordedAt(Replay(history).meta, history[i])
    {
      var last := |history| - 1;
      var q, mark := Replay(history[..last]), history[last];
      ReplayIndexed(history[..last]);
      if mark.Ran? && mark.call.Creating? {
        CreateKeeps(digest, q.meta, mark.call.account, mark.call.input);
      }
      if i < last {
        RightRecords(history[..last], i);
        assert history[..last][i] == history[i];
      }
    }

    /** Two successful creations of one slot, by whichever threads, return the same record. */
    lemma SameSlotSameRecord(events: seq<Event>, i: nat, j: nat)
      requires i < |Run(events).history| && j < |Run(events).history|
      requires var (a, b) := (Run(events).history[i], Run(events).history[j]);
               && a.Ran? && b.Ran? && a.call.Creating? && b.call.Creating? && a.answer.Made? && b.answer.Made?
               && SlotOf(a.call) == SlotOf(b.call)
      ensures Run(events).history[i].answer == Run(events).history[j].answer
    {
      Linearizable(events);
      RightRecords(Run(events).history, i);
      RightRecords(Run(events).history, j);
    }

    /** Whenever the lock is free the two indexes are in bijection, as long as the accounts in
        use have no "|" and the digest tells the names in use apart. */
    lemma IndexesStayBijective(events: seq<Event>)
      requires var w := Run(events);
               && w.lock.None?
               && (forall s :: s in w.meta.byName ==> NoBar(s.0))
               && (forall s, t :: s in w.meta.byName && t in w.meta.byName ==> Separates(digest, s, t))
      ensures Bijective(Run(events).meta)
    {
      Linearizable(events);
      NoBarBijective(digest, Run(events).meta);
    }

    /** How many calls were counted and faulted. */
    function FaultedIn(history: seq<Mark>): nat {
      if history == [] then 0
      else
        var mark := history[|history| - 1];
        FaultedIn(history[..|history| - 1]) + if mark.Took? && settings.Faulted(mark.number) then 1 else 0
    }

    lemma {:induction false} FaultedIsFaults(history: seq<Mark>)
      requires Replay(history).right
      ensures FaultedIn(history) == settings.Faults(Replay(history).counter)
    {
      if history != [] {
        FaultedIsFaults(history[..|history| - 1]);
      }
    }

    /** No count is lost, and how many calls were faulted depends on how many were counted, not
        on their mixture or order. */
    lemma FaultedCalls(events: seq<Event>)
      ensures FaultedIn(Run(events).history) == settings.Formula(Replay(Run(events).history).counter)
      ensures Run(events).lock.None? ==> Run(events).counter == Replay(Run(events).history).counter
    {
      Linearizable(events);
      FaultedByFormula(Run(events).history);
    }

    lemma FaultedByFormula(history: seq<Mark>)
      requires Replay(history).right
      ensures FaultedIn(history) == settings.Formula(Replay(history).counter)
    {
      FaultedIsFaults(history);
      FaultCount(settings, Replay(history).counter);
    }
  }
}
