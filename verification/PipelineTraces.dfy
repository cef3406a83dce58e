/**
 What the fields of a reached state say about the moves that led there: which instants were sent,
 when and with what outcome; what is in each channel; which requests were started and with which
 stamps; what each snapshot carried; and what the coordinator's aggregates were made of. Every
 trace is read off the states and moves of the run alone.
 */
module PipelineTraces {
  import opened Wrappers
  import opened Pipeline
  import opened PipelineTheorems
  import opened PipelineReports
  import M = Metrics

  // ---------------------------------------------------------------------------
  // Instants offered to a worker
  // ---------------------------------------------------------------------------

  datatype Fate = Queued | Refused | Lost

  datatype Offer = Offer(intended: nat, sent: nat, fate: Fate)

  /** What a send to the worker's channel comes to: no receiver, no room, or a place in the queue. */
  function FateOf(c: Config, l: Lane): Fate {
    if l.worker.phase.Done? || l.worker.phase.Crashed? then Lost
    else if |l.chan.queue| < c.capacity then Queued
    else Refused
  }

  function OfferOf(c: Config, s: State, m: Move, w: nat): seq<Offer> {
    if m.step.Dispatch? && m.step.entry.worker == w && w < |s.lanes|
    then [Offer(m.step.entry.time, m.at, FateOf(c, s.lanes[w]))]
    else []
  }

  /** The entries the first `i` moves popped for worker `w`: their instant, when they were sent, and the outcome. */
  function Offers(c: Config, states: seq<State>, moves: seq<Move>, i: nat, w: nat): seq<Offer>
    requires i <= |moves| < |states|
  {
    if i == 0 then [] else Offers(c, states, moves, i - 1, w) + OfferOf(c, states[i-1], moves[i-1], w)
  }

  function Instants(os: seq<Offer>): seq<nat> {
    if os == [] then [] else Instants(os[..|os|-1]) + [os[|os|-1].intended]
  }

  function WithFate(os: seq<Offer>, f: Fate): seq<Offer> {
    if os == [] then []
    else if os[|os|-1].fate == f then WithFate(os[..|os|-1], f) + [os[|os|-1]]
    else WithFate(os[..|os|-1], f)
  }

  /** The messages are Fires with exactly these stamps, in this order. */
  predicate FiresOf(ms: seq<Message>, os: seq<Offer>) {
    |ms| == |os| && forall k :: 0 <= k < |ms| ==> ms[k].Fire? && ms[k].intended == os[k].intended && ms[k].sent == os[k].sent
  }

  ghost predicate OffersInv(c: Config, s: State, w: nat, os: seq<Offer>) {
    && w < |s.lanes|
    && Popped(s.timer.popped, w) == Instants(os)
    && FiresOf(s.lanes[w].chan.accepted, WithFate(os, Queued))
    && s.lanes[w].chan.full == |WithFate(os, Refused)|
    && s.lanes[w].chan.disconnected == |WithFate(os, Lost)|
  }

  lemma OffersLast(os: seq<Offer>, o: Offer, f: Fate)
    ensures Instants(os + [o]) == Instants(os) + [o.intended]
    ensures WithFate(os + [o], f) == if o.fate == f then WithFate(os, f) + [o] else WithFate(os, f)
  {
    assert (os + [o])[..|os + [o]|-1] == os;
  }

  lemma DispatchEffect(c: Config, s: State, m: Move)
    requires Enabled(c, s, m.step, m.at) && m.step.Dispatch?
    ensures var s', w := Apply(c, s, m.step, m.at), m.step.entry.worker;
            && w < |s.lanes| && s'.timer.popped == s.timer.popped + [m.step.entry]
            && var h, h' := s.lanes[w].chan, s'.lanes[w].chan;
            && h'.full == h.full + (if FateOf(c, s.lanes[w]) == Refused then 1 else 0)
            && h'.disconnected == h.disconnected + (if FateOf(c, s.lanes[w]) == Lost then 1 else 0)
            && (FateOf(c, s.lanes[w]) != Queued ==> h'.accepted == h.accepted)
            && (FateOf(c, s.lanes[w]) == Queued ==>
                  && |h'.accepted| == |h.accepted| + 1 && h'.accepted[..|h.accepted|] == h.accepted
                  && var f := h'.accepted[|h.accepted|]; f.Fire? && f.intended == m.step.entry.time && f.sent == m.at)
  {
    DispatchPops(c, s.timer, s.lanes[m.step.entry.worker], m.step.entry, m.step.next);
    hide DispatchTimer;
  }

  /** Without a dispatch to it, a lane's account of Fires stays. */
  lemma NoDispatchEffect(c: Config, s: State, m: Move, w: nat)
    requires Enabled(c, s, m.step, m.at) && w < |s.lanes| && !(m.step.Dispatch? && m.step.entry.worker == w)
    ensures var h, h' := s.lanes[w].chan, Apply(c, s, m.step, m.at).lanes[w].chan;
            h'.accepted == h.accepted && h'.full == h.full && h'.disconnected == h.disconnected
    ensures Popped(Apply(c, s, m.step, m.at).timer.popped, w) == Popped(s.timer.popped, w)
  {
    OneLane(c, s, m.step, m.at);
    hide Apply, Enabled, Popped;
    if m.step.Dispatch? {
      DispatchEffect(c, s, m);
      PoppedAppend(s.timer.popped, m.step.entry, w);
    } else {
      CountersFrame(c, s, m.step, m.at);
      SchedulesKept(c, s, m.step, m.at);
    }
  }

  lemma OffersStep(c: Config, s: State, m: Move, w: nat, os: seq<Offer>)
    requires Enabled(c, s, m.step, m.at) && OffersInv(c, s, w, os)
    ensures OffersInv(c, Apply(c, s, m.step, m.at), w, os + OfferOf(c, s, m, w))
  {
    hide Apply, Enabled, Popped, Instants, WithFate;
    OneLane(c, s, m.step, m.at);
    if m.step.Dispatch? && m.step.entry.worker == w {
      var o := Offer(m.step.entry.time, m.at, FateOf(c, s.lanes[w]));
      DispatchEffect(c, s, m);
      PoppedAppend(s.timer.popped, m.step.entry, w);
      OffersLast(os, o, Queued);
      OffersLast(os, o, Refused);
      OffersLast(os, o, Lost);
    } else {
      NoDispatchEffect(c, s, m, w);
      assert os + [] == os;
    }
  }

  lemma OffersStart(c: Config, s: State, firsts: seq<Option<nat>>, w: nat)
    requires Started(s, firsts) && w < |s.lanes|
    ensures OffersInv(c, s, w, [])
  {
    assert FreshLane(s.lanes[w], firsts[w]);
    hide Seeded, M.Blank;
  }

  /**
   In every state of every run, what was popped for a worker is what the dispatch moves popped, in
   order; the Fires its channel accepted are those that found a receiver and room, in order, each
   with the popped instant and the moment it was sent; the losses are exactly the others.
   */
  lemma {:induction false} FiresCarryInstants(c: Config, states: seq<State>, moves: seq<Move>, i: nat, w: nat)
    requires Run(c, states, moves) && i < |states| == |moves| + 1 && w < |states[i].lanes|
    ensures OffersInv(c, states[i], w, Offers(c, states, moves, i, w))
  {
    hide *;
    if i == 0 {
      var firsts := RunStart(c, states, moves);
      OffersStart(c, states[0], firsts, w);
      NoOffers(c, states, moves, w);
    } else {
      RunStep(c, states, moves, i - 1);
      OneLane(c, states[i-1], moves[i-1].step, moves[i-1].at);
      FiresCarryInstants(c, states, moves, i - 1, w);
      OffersStep(c, states[i-1], moves[i-1], w, Offers(c, states, moves, i - 1, w));
      OffersMore(c, states, moves, i, w);
    }
  }

  lemma NoOffers(c: Config, states: seq<State>, moves: seq<Move>, w: nat)
    requires |moves| < |states|
    ensures Offers(c, states, moves, 0, w) == []
  {
  }

  lemma OffersMore(c: Config, states: seq<State>, moves: seq<Move>, i: nat, w: nat)
    requires 0 < i <= |moves| < |states|
    ensures Offers(c, states, moves, i, w) == Offers(c, states, moves, i - 1, w) + OfferOf(c, states[i-1], moves[i-1], w)
  {
  }

  function Intendeds(ms: seq<Message>): seq<nat>
    requires forall m :: m in ms ==> m.Fire?
  {
    if ms == [] then [] else Intendeds(ms[..|ms|-1]) + [ms[|ms|-1].intended]
  }

  lemma {:induction false} OffersOrder(os: seq<Offer>)
    ensures Subsequence(Instants(WithFate(os, Queued)), Instants(os))
  {
    if os != [] {
      hide Subsequence;
      var os', o := os[..|os|-1], os[|os|-1];
      OffersOrder(os');
      assert os == os' + [o];
      OffersLast(os', o, Queued);
      OffersLast(WithFate(os', Queued), o, Queued);
      hide Instants, WithFate;
      SubsequenceMore(Instants(WithFate(os', Queued)), Instants(os'), o.intended);
    } else {
      assert Instants([]) == [];
    }
  }

  function InstantsOf(os: seq<Offer>, f: Fate): multiset<nat> { multiset(Instants(WithFate(os, f))) }

  lemma InstantsOfLast(os: seq<Offer>, o: Offer, f: Fate)
    ensures InstantsOf(os + [o], f) == InstantsOf(os, f) + if o.fate == f then multiset{o.intended} else multiset{}
  {
    OffersLast(os, o, f);
    OffersLast(WithFate(os, f), o, f);
    hide Instants, WithFate;
  }

  lemma NoInstants(f: Fate)
    ensures Instants([]) == [] && InstantsOf([], f) == multiset{}
  {
  }

  lemma InstantsLast(os: seq<Offer>, o: Offer)
    ensures multiset(Instants(os + [o])) == multiset(Instants(os)) + multiset{o.intended}
  {
    OffersLast(os, o, Queued);
  }

  lemma {:induction false} OffersSplitAt(os: seq<Offer>, t: nat)
    ensures multiset(Instants(os))[t] == InstantsOf(os, Queued)[t] + InstantsOf(os, Refused)[t] + InstantsOf(os, Lost)[t]
  {
    hide *;
    if os == [] {
      NoInstants(Queued);
      NoInstants(Refused);
      NoInstants(Lost);
    } else {
      var os', o := os[..|os|-1], os[|os|-1];
      OffersSplitAt(os', t);
      assert os == os' + [o];
      InstantsLast(os', o);
      InstantsOfLast(os', o, Queued);
      InstantsOfLast(os', o, Refused);
      InstantsOfLast(os', o, Lost);
    }
  }

  lemma OffersSplit(os: seq<Offer>)
    ensures multiset(Instants(os)) == InstantsOf(os, Queued) + InstantsOf(os, Refused) + InstantsOf(os, Lost)
  {
    hide *;
    forall t: nat
      ensures multiset(Instants(os))[t] == (InstantsOf(os, Queued) + InstantsOf(os, Refused) + InstantsOf(os, Lost))[t]
    {
      OffersSplitAt(os, t);
    }
  }

  lemma {:induction false} SameInstants(ms: seq<Message>, os: seq<Offer>)
    requires FiresOf(ms, os)
    ensures (forall m :: m in ms ==> m.Fire?) && Intendeds(ms) == Instants(os)
  {
    if ms != [] {
      SameInstants(ms[..|ms|-1], os[..|os|-1]);
      assert ms[|ms|-1].Fire? && ms == ms[..|ms|-1] + [ms[|ms|-1]];
    }
  }

  /**
   So the accepted Fires carry a subsequence of the instants popped for the worker, and with the
   instants refused and lost they are all of them.
   */
  lemma AcceptedPopped(c: Config, states: seq<State>, moves: seq<Move>, i: nat, w: nat)
    requires Run(c, states, moves) && i < |states| == |moves| + 1 && w < |states[i].lanes|
    ensures var accepted, popped := states[i].lanes[w].chan.accepted, Popped(states[i].timer.popped, w);
            var os := Offers(c, states, moves, i, w);
            && (forall m :: m in accepted ==> m.Fire?)
            && Subsequence(Intendeds(accepted), popped)
            && multiset(popped) == multiset(Intendeds(accepted)) + InstantsOf(os, Refused) + InstantsOf(os, Lost)
  {
    FiresCarryInstants(c, states, moves, i, w);
    hide Run, Offers, Instants, WithFate, Popped, Subsequence, Intendeds;
    var os := Offers(c, states, moves, i, w);
    SameInstants(states[i].lanes[w].chan.accepted, WithFate(os, Queued));
    OffersOrder(os);
    OffersSplit(os);
  }

  // ---------------------------------------------------------------------------
  // The channel
  // ---------------------------------------------------------------------------

  /** What a move puts into worker `w`'s channel. */
  function SentBy(c: Config, s: State, m: Move, w: nat): seq<Message> {
    if w >= |s.lanes| then []
    else
      var fate := FateOf(c, s.lanes[w]);
      match m.step
      case Dispatch(e, _) => if e.worker == w && fate == Queued then [Fire(e.time, m.at)] else []
      case ForwardOne =>
        if s.timer.phase.Forwarding? && s.timer.phase.next == w && fate != Lost then [s.timer.phase.msg] else []
      case StopOne => if s.timer.phase.Stopping? && s.timer.phase.next == w && fate == Queued then [Stop] else []
      case _ => []
  }

  /** What a move takes out of it. */
  function TakenBy(s: State, m: Move, w: nat): seq<Message> {
    if w < |s.lanes| && m.step.Receive? && m.step.w == w && s.lanes[w].chan.queue != [] then [s.lanes[w].chan.queue[0]] else []
  }

  function Sent(c: Config, states: seq<State>, moves: seq<Move>, i: nat, w: nat): seq<Message>
    requires i <= |moves| < |states|
  {
    if i == 0 then [] else Sent(c, states, moves, i - 1, w) + SentBy(c, states[i-1], moves[i-1], w)
  }

  function Taken(states: seq<State>, moves: seq<Move>, i: nat, w: nat): seq<Message>
    requires i <= |moves| < |states|
  {
    if i == 0 then [] else Taken(states, moves, i - 1, w) + TakenBy(states[i-1], moves[i-1], w)
  }

  lemma QueueReceive(c: Config, s: State, m: Move, w: nat)
    requires Enabled(c, s, m.step, m.at) && m.step.Receive? && m.step.w == w
    ensures w < |s.lanes| && s.lanes[w].chan.queue != []
    ensures s.lanes[w].chan.queue == [s.lanes[w].chan.queue[0]] + Apply(c, s, m.step, m.at).lanes[w].chan.queue
  {
    hide HandleFire, SendSnapshot;
  }

  lemma QueueOther(c: Config, s: State, m: Move, w: nat)
    requires Enabled(c, s, m.step, m.at) && w < |s.lanes| && !m.step.Receive?
    ensures Apply(c, s, m.step, m.at).lanes[w].chan.queue == s.lanes[w].chan.queue + SentBy(c, s, m, w)
  {
    hide M.Merge, M.Of, SendSnapshot, MergeParcel, DispatchTimer;
  }

  lemma QueueStep(c: Config, s: State, m: Move, w: nat)
    requires Enabled(c, s, m.step, m.at) && w < |s.lanes|
    ensures s.lanes[w].chan.queue + SentBy(c, s, m, w) == TakenBy(s, m, w) + Apply(c, s, m.step, m.at).lanes[w].chan.queue
  {
    hide Apply, Enabled;
    OneLane(c, s, m.step, m.at);
    if !m.step.Receive? {
      QueueOther(c, s, m, w);
    } else if m.step.w == w {
      QueueReceive(c, s, m, w);
    }
  }

  lemma SentMore(c: Config, states: seq<State>, moves: seq<Move>, i: nat, w: nat)
    requires 0 < i <= |moves| < |states|
    ensures Sent(c, states, moves, i, w) == Sent(c, states, moves, i - 1, w) + SentBy(c, states[i-1], moves[i-1], w)
    ensures Taken(states, moves, i, w) == Taken(states, moves, i - 1, w) + TakenBy(states[i-1], moves[i-1], w)
  {
    hide SentBy, TakenBy;
  }

  lemma EmptyChannel(c: Config, states: seq<State>, moves: seq<Move>, firsts: seq<Option<nat>>, w: nat)
    requires |moves| < |states| && Started(states[0], firsts) && w < |states[0].lanes|
    ensures Sent(c, states, moves, 0, w) == Taken(states, moves, 0, w) + states[0].lanes[w].chan.queue
  {
    assert FreshLane(states[0].lanes[w], firsts[w]);
    hide Seeded, M.Blank;
  }

  lemma Regroup<T>(a: seq<T>, q: seq<T>, x: seq<T>, y: seq<T>, q': seq<T>)
    requires q + x == y + q'
    ensures a + q + x == a + y + q'
  {
    assert a + q + x == a + (q + x);
    assert a + y + q' == a + (y + q');
  }

  /** In every state of every run a channel holds, in order, what was put into it less what was taken out of it. */
  lemma {:induction false} ChannelFifo(c: Config, states: seq<State>, moves: seq<Move>, i: nat, w: nat)
    requires Run(c, states, moves) && i < |states| == |moves| + 1 && w < |states[i].lanes|
    ensures Sent(c, states, moves, i, w) == Taken(states, moves, i, w) + states[i].lanes[w].chan.queue
  {
    hide *;
    if i == 0 {
      var firsts := RunStart(c, states, moves);
      EmptyChannel(c, states, moves, firsts, w);
    } else {
      RunStep(c, states, moves, i - 1);
      var s, m := states[i-1], moves[i-1];
      OneLane(c, s, m.step, m.at);
      ChannelFifo(c, states, moves, i - 1, w);
      SentMore(c, states, moves, i, w);
      QueueStep(c, s, m, w);
      Regroup(Taken(states, moves, i - 1, w), s.lanes[w].chan.queue, SentBy(c, s, m, w), TakenBy(s, m, w), states[i].lanes[w].chan.queue);
    }
  }

  // ---------------------------------------------------------------------------
  // Requests
  // ---------------------------------------------------------------------------

  datatype Stamp = Stamp(intended: nat, sent: nat, actual: nat, dispatched: nat)

  function TaskStamps(ts: seq<Task>): (r: seq<Stamp>)
    ensures |r| == |ts| && forall k :: 0 <= k < |ts| ==> r[k] == Stamp(ts[k].intended, ts[k].sent, ts[k].actual, ts[k].dispatched)
  {
    seq(|ts|, k requires 0 <= k < |ts| => Stamp(ts[k].intended, ts[k].sent, ts[k].actual, ts[k].dispatched))
  }

  function ResultStamps(rs: seq<M.ExecutionResult>): (r: seq<Stamp>)
    ensures |r| == |rs| && forall k :: 0 <= k < |rs| ==> r[k] == Stamp(rs[k].intended, rs[k].sent, rs[k].actual, rs[k].dispatched)
  {
    seq(|rs|, k requires 0 <= k < |rs| => Stamp(rs[k].intended, rs[k].sent, rs[k].actual, rs[k].dispatched))
  }

  /** A move in which worker `w` receives a Fire. */
  predicate Fired(s: State, m: Move, w: nat) {
    && w < |s.lanes| && m.step.Receive? && m.step.w == w
    && s.lanes[w].chan.queue != [] && s.lanes[w].chan.queue[0].Fire?
  }

  predicate PermitFree(c: Config, w: Worker) { c.maxInFlight == 0 || w.inFlight < c.maxInFlight }

  /** The request a move starts: the Fire at the head of the channel, received and dispatched at the move's clock readings. */
  function RequestOf(c: Config, s: State, m: Move, w: nat): seq<Stamp> {
    if Fired(s, m, w) && PermitFree(c, s.lanes[w].worker) then
      [Stamp(s.lanes[w].chan.queue[0].intended, s.lanes[w].chan.queue[0].sent, m.at, m.step.dispatchAt)]
    else []
  }

  function DropOf(c: Config, s: State, m: Move, w: nat): nat {
    if Fired(s, m, w) && !PermitFree(c, s.lanes[w].worker) then 1 else 0
  }

  function ResultOfMove(m: Move, w: nat): seq<M.ExecutionResult> {
    if m.step.Complete? && m.step.w == w then [m.step.result] else []
  }

  function Requests(c: Config, states: seq<State>, moves: seq<Move>, i: nat, w: nat): seq<Stamp>
    requires i <= |moves| < |states|
  {
    if i == 0 then [] else Requests(c, states, moves, i - 1, w) + RequestOf(c, states[i-1], moves[i-1], w)
  }

  function Dropped(c: Config, states: seq<State>, moves: seq<Move>, i: nat, w: nat): nat
    requires i <= |moves| < |states|
  {
    if i == 0 then 0 else Dropped(c, states, moves, i - 1, w) + DropOf(c, states[i-1], moves[i-1], w)
  }

  function Completed(moves: seq<Move>, w: nat): seq<M.ExecutionResult> {
    if moves == [] then [] else Completed(moves[..|moves|-1], w) + ResultOfMove(moves[|moves|-1], w)
  }

  predicate RequestsInv(s: State, w: nat, started: seq<Stamp>, drops: nat, completed: seq<M.ExecutionResult>) {
    && w < |s.lanes|
    && multiset(TaskStamps(s.lanes[w].worker.tasks)) + multiset(ResultStamps(completed)) == multiset(started)
    && s.lanes[w].worker.drops == drops
    && s.lanes[w].worker.results == completed
  }

  /** Only receiving and completing touch a worker's tasks, results and drop counter. */
  lemma WorkerKept(c: Config, s: State, m: Move, w: nat)
    requires Enabled(c, s, m.step, m.at) && w < |s.lanes|
    requires !(m.step.Complete? && m.step.w == w) && !(m.step.Receive? && m.step.w == w)
    ensures var v, v' := s.lanes[w].worker, Apply(c, s, m.step, m.at).lanes[w].worker;
            v'.results == v.results && v'.drops == v.drops && v'.tasks == v.tasks && v'.inFlight == v.inFlight
  {
    OneLane(c, s, m.step, m.at);
    hide M.Merge, M.Of, SendSnapshot, MergeParcel, DispatchTimer, HandleFire, ReceiveLane, CompleteLane;
  }

  lemma HandledEffect(c: Config, core: nat, v: Worker, f: Message, now: nat, dispatchAt: nat)
    requires f.Fire?
    ensures var v' := HandleFire(c, core, v, f, now, dispatchAt);
            && v'.results == v.results && v'.drops == v.drops + (if PermitFree(c, v) then 0 else 1)
            && TaskStamps(v'.tasks) == TaskStamps(v.tasks) +
                                       if PermitFree(c, v) then [Stamp(f.intended, f.sent, now, dispatchAt)] else []
  {
  }

  lemma ReceivedWorker(c: Config, s: State, m: Move, w: nat)
    requires Enabled(c, s, m.step, m.at) && m.step.Receive? && m.step.w == w
    ensures w < |s.lanes| && s.lanes[w].chan.queue != []
    ensures var v, v', f := s.lanes[w].worker, Apply(c, s, m.step, m.at).lanes[w].worker, s.lanes[w].chan.queue[0];
            if f.Fire? then v' == HandleFire(c, w, v, f, m.at, m.step.dispatchAt)
            else v'.results == v.results && v'.drops == v.drops && v'.tasks == v.tasks
  {
    hide HandleFire, SendSnapshot;
  }

  lemma StartEffect(c: Config, s: State, m: Move, w: nat)
    requires Enabled(c, s, m.step, m.at) && w < |s.lanes| && !(m.step.Complete? && m.step.w == w)
    ensures var v, v' := s.lanes[w].worker, Apply(c, s, m.step, m.at).lanes[w].worker;
            && v'.results == v.results && v'.drops == v.drops + DropOf(c, s, m, w)
            && TaskStamps(v'.tasks) == TaskStamps(v.tasks) + RequestOf(c, s, m, w)
  {
    hide Apply, Enabled, HandleFire, PermitFree;
    OneLane(c, s, m.step, m.at);
    if m.step.Receive? && m.step.w == w {
      ReceivedWorker(c, s, m, w);
      var f := s.lanes[w].chan.queue[0];
      if f.Fire? { HandledEffect(c, w, s.lanes[w].worker, f, m.at, m.step.dispatchAt); }
    } else {
      WorkerKept(c, s, m, w);
    }
  }

  lemma StampRemoved(ts: seq<Task>, i: nat)
    requires i < |ts|
    ensures multiset(TaskStamps(ts[..i] + ts[i+1..])) + multiset{TaskStamps(ts)[i]} == multiset(TaskStamps(ts))
  {
    var a, b, x := TaskStamps(ts[..i]), TaskStamps(ts[i+1..]), TaskStamps(ts)[i];
    assert TaskStamps(ts) == a + [x] + b;
    assert TaskStamps(ts[..i] + ts[i+1..]) == a + b;
    hide TaskStamps;
    assert multiset(a + [x] + b) == multiset(a) + multiset{x} + multiset(b);
  }

  lemma CompletedWorker(c: Config, s: State, m: Move, w: nat)
    requires Enabled(c, s, m.step, m.at) && m.step.Complete? && m.step.w == w
    ensures w < |s.lanes| && m.step.task < |s.lanes[w].worker.tasks| && Result(s.lanes[w].worker.tasks[m.step.task], m.step.result)
    ensures var v, v', i := s.lanes[w].worker, Apply(c, s, m.step, m.at).lanes[w].worker, m.step.task;
            v'.tasks == v.tasks[..i] + v.tasks[i+1..] && v'.results == v.results + [m.step.result] && v'.drops == v.drops
  {
    hide M.Merge, M.Of;
  }

  lemma CompleteEffect(c: Config, s: State, m: Move, w: nat)
    requires Enabled(c, s, m.step, m.at) && m.step.Complete? && m.step.w == w
    ensures w < |s.lanes| && var v, v' := s.lanes[w].worker, Apply(c, s, m.step, m.at).lanes[w].worker;
            && v'.results == v.results + [m.step.result] && v'.drops == v.drops
            && multiset(TaskStamps(v'.tasks)) + multiset(ResultStamps([m.step.result])) == multiset(TaskStamps(v.tasks))
  {
    hide Apply, Enabled;
    CompletedWorker(c, s, m, w);
    var v, i := s.lanes[w].worker, m.step.task;
    StampRemoved(v.tasks, i);
    assert ResultStamps([m.step.result]) == [TaskStamps(v.tasks)[i]];
  }

  lemma StampsConcat(a: seq<M.ExecutionResult>, b: seq<M.ExecutionResult>)
    ensures ResultStamps(a + b) == ResultStamps(a) + ResultStamps(b)
  {
  }

  lemma MoveStamps(a: multiset<Stamp>, a': multiset<Stamp>, x: multiset<Stamp>, r: multiset<Stamp>)
    requires a' + x == a
    ensures a' + (r + x) == a + r
  {
    assert a' + (r + x) == (a' + x) + r;
  }

  lemma RequestsStep(c: Config, s: State, m: Move, w: nat, started: seq<Stamp>, drops: nat, completed: seq<M.ExecutionResult>)
    requires Enabled(c, s, m.step, m.at) && RequestsInv(s, w, started, drops, completed)
    ensures RequestsInv(Apply(c, s, m.step, m.at), w, started + RequestOf(c, s, m, w), drops + DropOf(c, s, m, w),
                        completed + ResultOfMove(m, w))
  {
    hide Apply, Enabled, TaskStamps, ResultStamps;
    OneLane(c, s, m.step, m.at);
    var v, v' := s.lanes[w].worker, Apply(c, s, m.step, m.at).lanes[w].worker;
    var a, a', r := multiset(TaskStamps(v.tasks)), multiset(TaskStamps(v'.tasks)), multiset(ResultStamps(completed));
    if m.step.Complete? && m.step.w == w {
      CompleteEffect(c, s, m, w);
      StampsConcat(completed, [m.step.result]);
      MoveStamps(a, a', multiset(ResultStamps([m.step.result])), r);
      assert started + [] == started;
    } else {
      StartEffect(c, s, m, w);
      assert completed + [] == completed;
      AddStamps(TaskStamps(v.tasks), r, started, RequestOf(c, s, m, w));
    }
  }

  lemma AddStamps(a: seq<Stamp>, r: multiset<Stamp>, started: seq<Stamp>, x: seq<Stamp>)
    requires multiset(a) + r == multiset(started)
    ensures multiset(a + x) + r == multiset(started + x)
  {
    assert multiset(a + x) == multiset(a) + multiset(x) && multiset(started + x) == multiset(started) + multiset(x);
    assert multiset(a) + multiset(x) + r == multiset(a) + r + multiset(x);
  }

  lemma RequestsMore(c: Config, states: seq<State>, moves: seq<Move>, i: nat, w: nat)
    requires 0 < i <= |moves| < |states|
    ensures Requests(c, states, moves, i, w) == Requests(c, states, moves, i - 1, w) + RequestOf(c, states[i-1], moves[i-1], w)
    ensures Dropped(c, states, moves, i, w) == Dropped(c, states, moves, i - 1, w) + DropOf(c, states[i-1], moves[i-1], w)
    ensures Completed(moves[..i], w) == Completed(moves[..i-1], w) + ResultOfMove(moves[i-1], w)
  {
    hide RequestOf, DropOf, ResultOfMove;
    assert moves[..i][..|moves[..i]|-1] == moves[..i-1];
  }

  lemma RequestsStart(c: Config, states: seq<State>, moves: seq<Move>, firsts: seq<Option<nat>>, w: nat)
    requires |moves| < |states| && Started(states[0], firsts) && w < |states[0].lanes|
    ensures RequestsInv(states[0], w, Requests(c, states, moves, 0, w), Dropped(c, states, moves, 0, w), Completed(moves[..0], w))
  {
    assert FreshLane(states[0].lanes[w], firsts[w]);
    hide Seeded, M.Blank;
  }

  /**
   In every state of every run, the requests a worker has in flight and the results it has recorded
   are exactly the Fires it received while a permit was free, each with the instant it was scheduled
   for and sent at and the clock readings of its receipt and dispatch; its drops are exactly the
   other Fires; and its results are those its tasks completed with, in order.
   */
  lemma {:induction false} RequestsCarryStamps(c: Config, states: seq<State>, moves: seq<Move>, i: nat, w: nat)
    requires Run(c, states, moves) && i < |states| == |moves| + 1 && w < |states[i].lanes|
    ensures RequestsInv(states[i], w, Requests(c, states, moves, i, w), Dropped(c, states, moves, i, w), Completed(moves[..i], w))
  {
    hide *;
    if i == 0 {
      var firsts := RunStart(c, states, moves);
      RequestsStart(c, states, moves, firsts, w);
    } else {
      RunStep(c, states, moves, i - 1);
      OneLane(c, states[i-1], moves[i-1].step, moves[i-1].at);
      RequestsCarryStamps(c, states, moves, i - 1, w);
      RequestsStep(c, states[i-1], moves[i-1], w, Requests(c, states, moves, i - 1, w), Dropped(c, states, moves, i - 1, w),
                   Completed(moves[..i-1], w));
      RequestsMore(c, states, moves, i, w);
    }
  }

  // ---------------------------------------------------------------------------
  // Snapshots
  // ---------------------------------------------------------------------------

  /** A move in which worker `w` sends a snapshot: on a due interval, or as its last act. */
  predicate Reporting(s: State, m: Move, w: nat) {
    w < |s.lanes| &&
    match m.step
    case Idle(v, due) => v == w && due
    case Finish(v) => v == w
    case Receive(v, _) => v == w && s.lanes[w].chan.queue != [] && s.lanes[w].chan.queue[0] == Stop && s.lanes[w].worker.phase.Draining?
    case _ => false
  }

  /** The results recorded since the worker last reported. */
  function Window(states: seq<State>, moves: seq<Move>, i: nat, w: nat): seq<M.ExecutionResult>
    requires i <= |moves| < |states|
  {
    if i == 0 || Reporting(states[i-1], moves[i-1], w) then []
    else Window(states, moves, i - 1, w) + ResultOfMove(moves[i-1], w)
  }

  /** Its drop counter when it last reported. */
  function DropsReported(states: seq<State>, moves: seq<Move>, i: nat, w: nat): nat
    requires i <= |moves| < |states|
  {
    if i == 0 then 0
    else if Reporting(states[i-1], moves[i-1], w) then states[i-1].lanes[w].worker.drops
    else DropsReported(states, moves, i - 1, w)
  }

  /** The snapshot: what was recorded and dropped since the last one, and what is in flight now. */
  ghost function ParcelOf(c: Config, v: Worker, window: seq<M.ExecutionResult>, reported: nat): Parcel {
    Parcel(M.StatsOf(c.metrics, window), if v.drops >= reported then v.drops - reported else 0, v.inFlight, c.maxInFlight, window)
  }

  ghost function Reports(c: Config, states: seq<State>, moves: seq<Move>, i: nat, w: nat): seq<Parcel>
    requires i <= |moves| < |states|
  {
    if i == 0 then []
    else
      Reports(c, states, moves, i - 1, w) +
      if Reporting(states[i-1], moves[i-1], w)
      then [ParcelOf(c, states[i-1].lanes[w].worker, Window(states, moves, i - 1, w), DropsReported(states, moves, i - 1, w))]
      else []
  }

  function MergedBy(s: State, m: Move, w: nat): seq<Parcel> {
    if w < |s.lanes| && m.step == MergeOne(w) && s.lanes[w].report.outbox != [] then [s.lanes[w].report.outbox[0]] else []
  }

  /** The snapshots of worker `w` that the coordinator has taken. */
  function Merged(states: seq<State>, moves: seq<Move>, i: nat, w: nat): seq<Parcel>
    requires i <= |moves| < |states|
  {
    if i == 0 then [] else Merged(states, moves, i - 1, w) + MergedBy(states[i-1], moves[i-1], w)
  }

  ghost predicate ReportsTraced(s: State, w: nat, window: seq<M.ExecutionResult>, reported: nat, sent: seq<Parcel>, merged: seq<Parcel>) {
    && w < |s.lanes|
    && s.lanes[w].report.window == window
    && (s.lanes[w].worker.phase.Done? || s.lanes[w].worker.lastDrops == reported)
    && sent == merged + s.lanes[w].report.outbox
  }

  lemma ReportEffect(c: Config, s: State, m: Move, w: nat)
    requires Enabled(c, s, m.step, m.at) && Reporting(s, m, w)
    requires ReportInv(c, s.lanes[w].worker, s.lanes[w].report)
    ensures var l, l' := s.lanes[w], Apply(c, s, m.step, m.at).lanes[w];
            && !l.worker.phase.Done? && l'.report.window == []
            && (l'.worker.phase.Done? || l'.worker.lastDrops == l.worker.drops)
            && l'.report.outbox == l.report.outbox + [ParcelOf(c, l.worker, l.report.window, l.worker.lastDrops)]
  {
    hide M.StatsOf, M.Merge, M.Of, HandleFire;
  }

  lemma ReceiveKept(c: Config, s: State, m: Move, w: nat)
    requires Enabled(c, s, m.step, m.at) && m.step.Receive? && m.step.w == w && !Reporting(s, m, w)
    ensures w < |s.lanes|
    ensures var l, l' := s.lanes[w], Apply(c, s, m.step, m.at).lanes[w];
            && l'.worker.lastDrops == l.worker.lastDrops && (l'.worker.phase.Done? <==> l.worker.phase.Done?)
            && l'.report == l.report
  {
    hide SendSnapshot;
  }

  lemma OtherKept(c: Config, s: State, m: Move, w: nat)
    requires Enabled(c, s, m.step, m.at) && w < |s.lanes| && !Reporting(s, m, w) && !m.step.Receive?
    requires !(m.step.Complete? && m.step.w == w) && !(m.step.MergeOne? && m.step.w == w)
    ensures var l, l' := s.lanes[w], Apply(c, s, m.step, m.at).lanes[w];
            && l'.worker.lastDrops == l.worker.lastDrops && (l'.worker.phase.Done? <==> l.worker.phase.Done?)
            && l'.report == l.report
  {
    hide M.Merge, M.Of, DispatchTimer, MergeParcel, SendSnapshot;
  }

  lemma CompleteKept(c: Config, s: State, m: Move, w: nat)
    requires Enabled(c, s, m.step, m.at) && m.step.Complete? && m.step.w == w
    ensures w < |s.lanes|
    ensures var l, l' := s.lanes[w], Apply(c, s, m.step, m.at).lanes[w];
            && l'.worker.lastDrops == l.worker.lastDrops && (l'.worker.phase.Done? <==> l.worker.phase.Done?)
            && l'.report.window == l.report.window + [m.step.result] && l'.report.outbox == l.report.outbox
  {
    hide M.Merge, M.Of;
  }

  lemma MergeKept(c: Config, s: State, m: Move, w: nat)
    requires Enabled(c, s, m.step, m.at) && m.step == MergeOne(w)
    ensures w < |s.lanes| && s.lanes[w].report.outbox != []
    ensures var l, l' := s.lanes[w], Apply(c, s, m.step, m.at).lanes[w];
            && l'.worker == l.worker && l'.report.window == l.report.window
            && l.report.outbox == [l.report.outbox[0]] + l'.report.outbox
  {
    hide M.Merge, M.Of, MergeParcel;
  }

  lemma ReportKept(c: Config, s: State, m: Move, w: nat)
    requires Enabled(c, s, m.step, m.at) && w < |s.lanes| && !Reporting(s, m, w)
    ensures var l, l' := s.lanes[w], Apply(c, s, m.step, m.at).lanes[w];
            && l'.worker.lastDrops == l.worker.lastDrops && (l'.worker.phase.Done? <==> l.worker.phase.Done?)
            && l'.report.window == l.report.window + ResultOfMove(m, w)
            && l.report.outbox == MergedBy(s, m, w) + l'.report.outbox
  {
    hide Apply, Enabled, Reporting;
    OneLane(c, s, m.step, m.at);
    if m.step.Receive? {
      if m.step.w == w { ReceiveKept(c, s, m, w); }
    } else if m.step.Complete? && m.step.w == w {
      CompleteKept(c, s, m, w);
    } else if m.step.MergeOne? && m.step.w == w {
      MergeKept(c, s, m, w);
    } else {
      OtherKept(c, s, m, w);
    }
  }

  lemma ReportsStep(c: Config, s: State, m: Move, w: nat, window: seq<M.ExecutionResult>, reported: nat,
                    sent: seq<Parcel>, merged: seq<Parcel>)
    requires Enabled(c, s, m.step, m.at) && ReportsTraced(s, w, window, reported, sent, merged)
    requires ReportInv(c, s.lanes[w].worker, s.lanes[w].report)
    ensures var s', report := Apply(c, s, m.step, m.at), Reporting(s, m, w);
            ReportsTraced(s', w, if report then [] else window + ResultOfMove(m, w),
                          if report then s.lanes[w].worker.drops else reported,
                          sent + (if report then [ParcelOf(c, s.lanes[w].worker, window, reported)] else []),
                          merged + MergedBy(s, m, w))
  {
    hide Apply, Enabled, ParcelOf, ReportInv, ResultOfMove, Reporting, MergedBy;
    OneLane(c, s, m.step, m.at);
    var q, q' := s.lanes[w].report.outbox, Apply(c, s, m.step, m.at).lanes[w].report.outbox;
    if Reporting(s, m, w) {
      ReportEffect(c, s, m, w);
      NotMerging(s, m, w);
      var p := [ParcelOf(c, s.lanes[w].worker, window, reported)];
      Regroup(merged, q, p, [], q');
    } else {
      ReportKept(c, s, m, w);
      Regroup(merged, q, [], MergedBy(s, m, w), q');
    }
  }

  lemma NotMerging(s: State, m: Move, w: nat)
    requires Reporting(s, m, w)
    ensures MergedBy(s, m, w) == []
  {
  }

  lemma ReportsMore(c: Config, states: seq<State>, moves: seq<Move>, i: nat, w: nat)
    requires 0 < i <= |moves| < |states| && w < |states[i-1].lanes|
    ensures var s, m := states[i-1], moves[i-1];
            var window, reported := Window(states, moves, i - 1, w), DropsReported(states, moves, i - 1, w);
            && Window(states, moves, i, w) == (if Reporting(s, m, w) then [] else window + ResultOfMove(m, w))
            && DropsReported(states, moves, i, w) == (if Reporting(s, m, w) then s.lanes[w].worker.drops else reported)
            && Reports(c, states, moves, i, w) ==
               Reports(c, states, moves, i - 1, w) + (if Reporting(s, m, w) then [ParcelOf(c, s.lanes[w].worker, window, reported)] else [])
            && Merged(states, moves, i, w) == Merged(states, moves, i - 1, w) + MergedBy(s, m, w)
  {
    hide Reporting, ParcelOf, ResultOfMove, MergedBy;
  }

  lemma ReportsStart(c: Config, states: seq<State>, moves: seq<Move>, firsts: seq<Option<nat>>, w: nat)
    requires |moves| < |states| && Started(states[0], firsts) && w < |states[0].lanes|
    ensures ReportsTraced(states[0], w, Window(states, moves, 0, w), DropsReported(states, moves, 0, w),
                          Reports(c, states, moves, 0, w), Merged(states, moves, 0, w))
  {
    assert FreshLane(states[0].lanes[w], firsts[w]);
    hide Seeded, M.Blank;
  }

  /**
   In every state of every run, the snapshots a worker has sent are, in order, those the coordinator
   has taken and those still waiting. Each was sent at a reporting move and carries exactly the
   results recorded and the drops counted since the one before it, the requests in flight at that
   moment, and the limit.
   */
  lemma {:induction false} SnapshotsSent(c: Config, states: seq<State>, moves: seq<Move>, i: nat, w: nat)
    requires Run(c, states, moves) && i < |states| == |moves| + 1 && w < |states[i].lanes|
    ensures ReportsTraced(states[i], w, Window(states, moves, i, w), DropsReported(states, moves, i, w),
                          Reports(c, states, moves, i, w), Merged(states, moves, i, w))
  {
    hide *;
    if i == 0 {
      var firsts := RunStart(c, states, moves);
      ReportsStart(c, states, moves, firsts, w);
    } else {
      RunStep(c, states, moves, i - 1);
      var s, m := states[i-1], moves[i-1];
      OneLane(c, s, m.step, m.at);
      SnapshotsSent(c, states, moves, i - 1, w);
      RunReport(c, states, moves, i - 1, w);
      ReportsStep(c, s, m, w, Window(states, moves, i - 1, w), DropsReported(states, moves, i - 1, w),
                  Reports(c, states, moves, i - 1, w), Merged(states, moves, i - 1, w));
      ReportsMore(c, states, moves, i, w);
    }
  }

  lemma RunReport(c: Config, states: seq<State>, moves: seq<Move>, i: nat, w: nat)
    requires Run(c, states, moves) && i < |states| && w < |states[i].lanes|
    ensures ReportInv(c, states[i].lanes[w].worker, states[i].lanes[w].report)
  {
    RunParts(c, states, moves, i);
    hide Run, ReportInv, LanesInv, ShutdownsInv, MergeInv, CounterInv, CoordInv;
  }

  // ---------------------------------------------------------------------------
  // The coordinator
  // ---------------------------------------------------------------------------

  /** The snapshot a move hands to the coordinator. */
  function ParcelTaken(s: State, m: Move): seq<Parcel> {
    if m.step.MergeOne? && m.step.w < |s.lanes| && s.lanes[m.step.w].report.outbox != []
    then [s.lanes[m.step.w].report.outbox[0]]
    else []
  }

  /** Those taken since the last tick, before the final drains. */
  function TickParcels(states: seq<State>, moves: seq<Move>, i: nat): seq<Parcel>
    requires i <= |moves| < |states|
  {
    if i == 0 || moves[i-1].step.Tick? then []
    else if Finalized(moves[..i-1]) then TickParcels(states, moves, i - 1)
    else TickParcels(states, moves, i - 1) + ParcelTaken(states[i-1], moves[i-1])
  }

  /** Those taken once the warm-up was over, or in the final drains; or those taken before, if `!ended`. */
  function TotalParcels(states: seq<State>, moves: seq<Move>, i: nat, ended: bool): seq<Parcel>
    requires i <= |moves| < |states|
  {
    if i == 0 then []
    else if Opened(moves[..i-1]) == ended then TotalParcels(states, moves, i - 1, ended) + ParcelTaken(states[i-1], moves[i-1])
    else TotalParcels(states, moves, i - 1, ended)
  }

  function SumInFlight(ps: seq<Parcel>): nat {
    if ps == [] then 0 else SumInFlight(ps[..|ps|-1]) + ps[|ps|-1].inFlight
  }

  predicate CoordTraced(k: Coordinator, ended: bool, finalized: bool, tick: seq<Parcel>, total: seq<Parcel>, warmup: seq<Parcel>) {
    && (k.warm || k.phase.Finalizing? <==> ended) && (k.phase.Finalizing? <==> finalized)
    && k.tickLog == ParcelResults(tick) && k.tickInFlight == SumInFlight(tick)
    && k.log == ParcelResults(total) && k.totalDrops == SumParcelDrops(total)
    && k.warmup == ParcelResults(warmup) && k.warmupDrops == SumParcelDrops(warmup)
  }

  lemma ParcelsMore(ps: seq<Parcel>, more: seq<Parcel>)
    requires |more| <= 1
    ensures ParcelResults(ps + more) == ParcelResults(ps) + (if more == [] then [] else more[0].results)
    ensures SumParcelDrops(ps + more) == SumParcelDrops(ps) + (if more == [] then 0 else more[0].drops)
    ensures SumInFlight(ps + more) == SumInFlight(ps) + (if more == [] then 0 else more[0].inFlight)
  {
    if more == [] {
      assert ps + more == ps;
    } else {
      assert more == [more[0]] && (ps + more)[..|ps + more|-1] == ps;
      ParcelsAppend(ps, more[0]);
      hide ParcelResults, SumParcelDrops;
    }
  }

  /** What a move does to the aggregates' logs. */
  lemma CoordEffect(c: Config, s: State, m: Move)
    requires Enabled(c, s, m.step, m.at)
    ensures var k, k', ps := s.coord, Apply(c, s, m.step, m.at).coord, ParcelTaken(s, m);
            var rs, into := if ps == [] then [] else ps[0].results, k.warm || k.phase.Finalizing?;
            && |ps| <= 1 && (m.step.Tick? ==> k'.tickLog == [] && k'.tickInFlight == 0)
            && (!m.step.Tick? && k.phase.Finalizing? ==> k'.tickLog == k.tickLog && k'.tickInFlight == k.tickInFlight)
            && (!m.step.Tick? && k.phase.Ticking? ==>
                  k'.tickLog == k.tickLog + rs && k'.tickInFlight == k.tickInFlight + if ps == [] then 0 else ps[0].inFlight)
            && (into ==> k'.log == k.log + rs && k'.totalDrops == k.totalDrops + if ps == [] then 0 else ps[0].drops)
            && (into ==> k'.warmup == k.warmup && k'.warmupDrops == k.warmupDrops)
            && (!into ==> k'.warmup == k.warmup + rs && k'.warmupDrops == k.warmupDrops + if ps == [] then 0 else ps[0].drops)
            && (!into ==> k'.log == k.log && k'.totalDrops == k.totalDrops)
  {
    hide M.Merge, M.Of, HandleFire, SendSnapshot, DispatchTimer, DispatchLane;
  }

  lemma CoordStep(c: Config, s: State, m: Move, before: seq<Move>, tick: seq<Parcel>, total: seq<Parcel>, warmup: seq<Parcel>)
    requires Enabled(c, s, m.step, m.at)
    requires CoordTraced(s.coord, Opened(before), Finalized(before), tick, total, warmup)
    ensures var k', ps := Apply(c, s, m.step, m.at).coord, ParcelTaken(s, m);
            CoordTraced(k', Opened(before + [m]), Finalized(before + [m]),
                        if m.step.Tick? then [] else if Finalized(before) then tick else tick + ps,
                        if Opened(before) then total + ps else total, if Opened(before) then warmup else warmup + ps)
  {
    hide Apply, Enabled, ParcelResults, SumParcelDrops, SumInFlight, Opened, Finalized, ParcelTaken;
    CoordEffect(c, s, m);
    WarmStep(c, s, m.step, m.at);
    OpenedStep(before, m);
    FinalStep(c, s, m);
    MovesStep(before, m);
    var ps := ParcelTaken(s, m);
    ParcelsMore(tick, ps);
    ParcelsMore(total, ps);
    ParcelsMore(warmup, ps);
    NoParcels();
  }

  lemma NoParcels()
    ensures ParcelResults([]) == [] && SumParcelDrops([]) == 0 && SumInFlight([]) == 0
  {
  }

  lemma FinalStep(c: Config, s: State, m: Move)
    requires Enabled(c, s, m.step, m.at)
    ensures Apply(c, s, m.step, m.at).coord.phase.Finalizing? <==> s.coord.phase.Finalizing? || m.step.Finalize?
  {
    hide M.Merge, M.Of, HandleFire, SendSnapshot, DispatchTimer, DispatchLane;
  }

  lemma CoordMore(states: seq<State>, moves: seq<Move>, i: nat)
    requires 0 < i <= |moves| < |states|
    ensures var before, m, ps := moves[..i-1], moves[i-1], ParcelTaken(states[i-1], moves[i-1]);
            var tick, total, warmup := TickParcels(states, moves, i - 1), TotalParcels(states, moves, i - 1, true), TotalParcels(states, moves, i - 1, false);
            && TickParcels(states, moves, i) == (if m.step.Tick? then [] else if Finalized(before) then tick else tick + ps)
            && TotalParcels(states, moves, i, true) == (if Opened(before) then total + ps else total)
            && TotalParcels(states, moves, i, false) == (if Opened(before) then warmup else warmup + ps)
  {
    hide ParcelTaken, Opened, Finalized;
  }

  lemma CoordStart(states: seq<State>, moves: seq<Move>, firsts: seq<Option<nat>>)
    requires |moves| < |states| && Started(states[0], firsts)
    ensures CoordTraced(states[0].coord, Opened(moves[..0]), Finalized(moves[..0]), TickParcels(states, moves, 0),
                        TotalParcels(states, moves, 0, true), TotalParcels(states, moves, 0, false))
  {
    hide Seeded, M.Blank, FreshLane;
  }

  lemma {:induction false} RunCoord(c: Config, states: seq<State>, moves: seq<Move>, i: nat)
    requires Run(c, states, moves) && i < |states| == |moves| + 1
    ensures CoordTraced(states[i].coord, Opened(moves[..i]), Finalized(moves[..i]), TickParcels(states, moves, i),
                        TotalParcels(states, moves, i, true), TotalParcels(states, moves, i, false))
  {
    hide *;
    if i == 0 {
      var firsts := RunStart(c, states, moves);
      CoordStart(states, moves, firsts);
    } else {
      RunStep(c, states, moves, i - 1);
      RunCoord(c, states, moves, i - 1);
      CoordStep(c, states[i-1], moves[i-1], moves[..i-1], TickParcels(states, moves, i - 1),
                TotalParcels(states, moves, i - 1, true), TotalParcels(states, moves, i - 1, false));
      CoordMore(states, moves, i);
    }
  }

  /**
   On every run the tick aggregate is one collector's over exactly the results of the snapshots taken
   since the last tick and before the final drains, the total one collector's over those of the
   snapshots taken once the warm-up was over, and nothing else; drop deltas and in-flight counts are
   summed over the same snapshots.
   */
  lemma AggregatesTaken(c: Config, states: seq<State>, moves: seq<Move>, i: nat)
    requires Run(c, states, moves) && i < |states| == |moves| + 1
    ensures var k := states[i].coord;
            var tick, total, warmup := TickParcels(states, moves, i), TotalParcels(states, moves, i, true), TotalParcels(states, moves, i, false);
            && k.tickLog == ParcelResults(tick) && k.tick == M.StatsOf(c.metrics, ParcelResults(tick))
            && k.tickInFlight == SumInFlight(tick)
            && k.log == ParcelResults(total) && k.total == M.StatsOf(c.metrics, ParcelResults(total))
            && k.totalDrops == SumParcelDrops(total)
            && k.warmup == ParcelResults(warmup) && k.warmupDrops == SumParcelDrops(warmup)
  {
    hide *;
    RunCoord(c, states, moves, i);
    RunParts(c, states, moves, i);
    TracedFigures(c, states[i].coord, states[i].lanes, Opened(moves[..i]), Finalized(moves[..i]), TickParcels(states, moves, i),
                  TotalParcels(states, moves, i, true), TotalParcels(states, moves, i, false));
  }

  lemma TracedFigures(c: Config, k: Coordinator, lanes: seq<Lane>, ended: bool, finalized: bool,
                      tick: seq<Parcel>, total: seq<Parcel>, warmup: seq<Parcel>)
    requires CoordTraced(k, ended, finalized, tick, total, warmup) && CoordInv(c, k, lanes)
    ensures && k.tickLog == ParcelResults(tick) && k.tick == M.StatsOf(c.metrics, ParcelResults(tick))
            && k.tickInFlight == SumInFlight(tick)
            && k.log == ParcelResults(total) && k.total == M.StatsOf(c.metrics, ParcelResults(total))
            && k.totalDrops == SumParcelDrops(total)
            && k.warmup == ParcelResults(warmup) && k.warmupDrops == SumParcelDrops(warmup)
  {
    hide M.StatsOf, ParcelResults, SumParcelDrops, SumInFlight, DeliveredResults, Sum;
  }

  // ---------------------------------------------------------------------------
  // Control messages
  // ---------------------------------------------------------------------------

  /** The control messages commanded, in order. */
  function Commanded(moves: seq<Move>): seq<Message> {
    if moves == [] then []
    else Commanded(moves[..|moves|-1]) + if moves[|moves|-1].step.ForwardCommand? then [moves[|moves|-1].step.msg] else []
  }

  /** Those offered to worker `w`. */
  function Forwarded(states: seq<State>, moves: seq<Move>, i: nat, w: nat): seq<Message>
    requires i <= |moves| < |states|
  {
    if i == 0 then []
    else Forwarded(states, moves, i - 1, w) + ForwardedBy(states[i-1], moves[i-1], w)
  }

  function ForwardedBy(s: State, m: Move, w: nat): seq<Message> {
    if m.step.ForwardOne? && s.timer.phase.Forwarding? && s.timer.phase.next == w then [s.timer.phase.msg] else []
  }

  function StopBy(s: State, m: Move, w: nat): nat {
    if m.step.StopOne? && s.timer.phase.Stopping? && s.timer.phase.next == w then 1 else 0
  }

  /** How often Stop was offered to worker `w`. */
  function Stops(states: seq<State>, moves: seq<Move>, i: nat, w: nat): nat
    requires i <= |moves| < |states|
  {
    if i == 0 then 0 else Stops(states, moves, i - 1, w) + StopBy(states[i-1], moves[i-1], w)
  }

  predicate ControlInv(p: TimerPhase, n: nat, w: nat, commanded: seq<Message>, forwarded: seq<Message>, stops: nat) {
    match p
    case Looping => forwarded == commanded && stops == 0
    case Forwarding(m, next) => next < n && stops == 0 && commanded == if w < next then forwarded else forwarded + [m]
    case Stopping(next) => next < n && forwarded == commanded && stops == if w < next then 1 else 0
    case Exited => forwarded == commanded && stops == 1
  }

  lemma PhaseEffect(c: Config, s: State, m: Move)
    requires Enabled(c, s, m.step, m.at)
    ensures var p, p', n := s.timer.phase, Apply(c, s, m.step, m.at).timer.phase, |s.lanes|;
            match m.step
            case ForwardCommand(msg) => p == Looping && p' == if n == 0 then Looping else Forwarding(msg, 0)
            case StopCommand => p == Looping && p' == if n == 0 then Exited else Stopping(0)
            case Exhausted => p == Looping && p' == if n == 0 then Exited else Stopping(0)
            case ForwardOne => p.Forwarding? && p.next < n && p' == if p.next + 1 == n then Looping else Forwarding(p.msg, p.next + 1)
            case StopOne => p.Stopping? && p.next < n && p' == if p.next + 1 == n then Exited else Stopping(p.next + 1)
            case _ => p' == p
  {
    if m.step.Dispatch? { DispatchPops(c, s.timer, s.lanes[m.step.entry.worker], m.step.entry, m.step.next); }
    hide M.Merge, M.Of, HandleFire, SendSnapshot, MergeParcel, DispatchTimer, DispatchLane;
  }

  lemma ControlStep(c: Config, s: State, m: Move, w: nat, before: seq<Move>, forwarded: seq<Message>, stops: nat)
    requires Enabled(c, s, m.step, m.at) && w < |s.lanes|
    requires ControlInv(s.timer.phase, |s.lanes|, w, Commanded(before), forwarded, stops)
    ensures ControlInv(Apply(c, s, m.step, m.at).timer.phase, |s.lanes|, w, Commanded(before + [m]),
                       forwarded + ForwardedBy(s, m, w), stops + StopBy(s, m, w))
  {
    hide Apply, Enabled, Commanded;
    PhaseEffect(c, s, m);
    CommandedLast(before, m);
    assert forwarded + [] == forwarded && Commanded(before) + [] == Commanded(before);
  }

  lemma CommandedLast(before: seq<Move>, m: Move)
    ensures Commanded(before + [m]) == Commanded(before) + if m.step.ForwardCommand? then [m.step.msg] else []
  {
    assert (before + [m])[..|before + [m]|-1] == before;
  }

  lemma ControlMore(states: seq<State>, moves: seq<Move>, i: nat, w: nat)
    requires 0 < i <= |moves| < |states|
    ensures Forwarded(states, moves, i, w) == Forwarded(states, moves, i - 1, w) + ForwardedBy(states[i-1], moves[i-1], w)
    ensures Stops(states, moves, i, w) == Stops(states, moves, i - 1, w) + StopBy(states[i-1], moves[i-1], w)
  {
    hide ForwardedBy, StopBy;
  }

  lemma ControlStart(states: seq<State>, moves: seq<Move>, firsts: seq<Option<nat>>, w: nat)
    requires |moves| < |states| && Started(states[0], firsts)
    ensures ControlInv(states[0].timer.phase, |states[0].lanes|, w, Commanded(moves[..0]), Forwarded(states, moves, 0, w), Stops(states, moves, 0, w))
  {
    hide Seeded, M.Blank, FreshLane;
  }

  lemma {:induction false} RunControl(c: Config, states: seq<State>, moves: seq<Move>, i: nat, w: nat)
    requires Run(c, states, moves) && i < |states| == |moves| + 1 && w < |states[i].lanes|
    ensures ControlInv(states[i].timer.phase, |states[i].lanes|, w, Commanded(moves[..i]), Forwarded(states, moves, i, w), Stops(states, moves, i, w))
  {
    hide *;
    if i == 0 {
      var firsts := RunStart(c, states, moves);
      ControlStart(states, moves, firsts, w);
    } else {
      RunStep(c, states, moves, i - 1);
      OneLane(c, states[i-1], moves[i-1].step, moves[i-1].at);
      RunControl(c, states, moves, i - 1, w);
      ControlStep(c, states[i-1], moves[i-1], w, moves[..i-1], Forwarded(states, moves, i - 1, w), Stops(states, moves, i - 1, w));
      ControlMore(states, moves, i, w);
    }
  }

  /**
   On every run, whenever the timer is back in its loop or has returned, every control message has
   been offered to every worker, in order and once; when it has returned, so has one Stop.
   */
  lemma ControlReachesAll(c: Config, states: seq<State>, moves: seq<Move>, i: nat, w: nat)
    requires Run(c, states, moves) && i < |states| == |moves| + 1 && w < |states[i].lanes|
    ensures var p := states[i].timer.phase;
            && (p.Looping? || p.Exited? ==> Forwarded(states, moves, i, w) == Commanded(moves[..i]))
            && (p.Looping? ==> Stops(states, moves, i, w) == 0) && (p.Exited? ==> Stops(states, moves, i, w) == 1)
  {
    RunControl(c, states, moves, i, w);
    hide Run, Forwarded, Commanded, Stops;
  }
}
