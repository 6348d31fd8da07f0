/**
 The synchronizer's table of requested blocks (hydrangea/src/synchronizer.rs:48-125) and the
 store's queues of readers (store/src/lib.rs:33-59) that wake it up. Each request starts a
 waiter, a task that asks the store to be told when the block is written. The two event
 loops and the waiters interleave in any order.
 */
module BlockSync {
  import opened Types

  // A waiter has not reached the store yet, is queued there, or has its answer.
  datatype Phase = Starting | Queued | Answered
  datatype Waiter = Waiter(digest: Digest, phase: Phase)

  datatype World = World(
    db: set<Digest>,                       // written to the store
    obligations: map<Digest, seq<nat>>,    // the store's queues of waiters
    answers: seq<nat>,                     // answers given by the store, in order
    requests: set<Digest>,
    loopbacks: map<Digest, Block>,
    waiters: map<nat, Waiter>,             // the futures in `waiting`
    started: nat,
    delivered: seq<Block>)                 // sent back to the core

  const EMPTY := World({}, map[], [], {}, map[], map[], 0, [])

  datatype Event =
    | Request(d: Digest, resume: Option<Block>)  // synchronizer.rs:52-103
    | NotifyRead(w: nat)                         // lib.rs:47-57, for waiter w
    | Write(d: Digest)                           // lib.rs:35-42
    | Wake(w: nat)                               // synchronizer.rs:104-119

  predicate Possible(x: World, e: Event) {
    match e
    case Request(_, _) => true
    case NotifyRead(w) => w in x.waiters && x.waiters[w].phase == Starting
    case Write(_) => true
    case Wake(w) => w in x.waiters && x.waiters[w].phase == Answered
  }

  // ---------------------------------------------------------------- the steps

  function OnRequest(x: World, d: Digest, resume: Option<Block>): World {
    if d in x.requests then
      match resume
      case None => x
      case Some(b) =>
        x.(loopbacks := if d in x.loopbacks && b.round <= x.loopbacks[d].round then x.loopbacks else x.loopbacks[d := b])
    else
      var x' := match resume
        case None => x
        case Some(b) => x.(requests := x.requests - {Hash(b)}, loopbacks := x.loopbacks[d := b]);
      x'.(waiters := x'.waiters[x'.started := Waiter(d, Starting)], started := x'.started + 1, requests := x'.requests + {d})
  }

  function OnNotifyRead(x: World, w: nat): World
    requires w in x.waiters
  {
    var d := x.waiters[w].digest;
    if d in x.db then
      x.(answers := x.answers + [w], waiters := x.waiters[w := Waiter(d, Answered)])
    else
      x.(obligations := x.obligations[d := Queue(x.obligations, d) + [w]], waiters := x.waiters[w := Waiter(d, Queued)])
  }

  function Queue(obligations: map<Digest, seq<nat>>, d: Digest): seq<nat> {
    if d in obligations then obligations[d] else []
  }

  // The waiters in a queue get their answers.
  function Answer(waiters: map<nat, Waiter>, queue: seq<nat>): map<nat, Waiter> {
    map w | w in waiters :: if w in queue then waiters[w].(phase := Answered) else waiters[w]
  }

  function OnWrite(x: World, d: Digest): World {
    x.(db := x.db + {d}, obligations := x.obligations - {d}, answers := x.answers + Queue(x.obligations, d),
       waiters := Answer(x.waiters, Queue(x.obligations, d)))
  }

  function OnWake(x: World, w: nat): World
    requires w in x.waiters
  {
    var d := x.waiters[w].digest;
    x.(waiters := x.waiters - {w}, requests := x.requests - {d}, loopbacks := x.loopbacks - {d},
       delivered := if d in x.loopbacks then x.delivered + [x.loopbacks[d]] else x.delivered)
  }

  function Step(x: World, e: Event): World
    requires Possible(x, e)
  {
    match e
    case Request(d, resume) => OnRequest(x, d, resume)
    case NotifyRead(w) => OnNotifyRead(x, w)
    case Write(d) => OnWrite(x, d)
    case Wake(w) => OnWake(x, w)
  }

  // ---------------------------------------------------------------- the invariant

  ghost predicate HasWaiter(waiters: map<nat, Waiter>, d: Digest) {
    exists w :: w in waiters && waiters[w].digest == d
  }

  ghost predicate NoRepeats(s: seq<nat>) {
    forall i, j :: 0 <= i < j < |s| ==> s[i] != s[j]
  }

  // The queued waiters are in the queue of their block, and nothing else is in a queue.
  ghost predicate Listed(waiters: map<nat, Waiter>, obligations: map<Digest, seq<nat>>) {
    && (forall w :: w in waiters && waiters[w].phase == Queued ==> w in Queue(obligations, waiters[w].digest))
    && (forall d, w :: w in Queue(obligations, d) ==> w in waiters && waiters[w] == Waiter(d, Queued))
  }

  ghost predicate NoneTwice(obligations: map<Digest, seq<nat>>) {
    forall d :: NoRepeats(Queue(obligations, d))
  }

  // Only unwritten blocks have queues, and the blocks of answered waiters are written.
  ghost predicate Written(waiters: map<nat, Waiter>, obligations: map<Digest, seq<nat>>, db: set<Digest>) {
    && (forall d :: d in obligations ==> d !in db)
    && (forall w :: w in waiters && waiters[w].phase == Answered ==> waiters[w].digest in db)
  }

  ghost predicate QueuesOk(waiters: map<nat, Waiter>, obligations: map<Digest, seq<nat>>, db: set<Digest>) {
    Listed(waiters, obligations) && NoneTwice(obligations) && Written(waiters, obligations, db)
  }

  // The store has answered, once, exactly the waiters that are answered or gone.
  ghost predicate AnswersOk(waiters: map<nat, Waiter>, answers: seq<nat>, started: nat) {
    && (forall w :: w in waiters ==> w < started)
    && (forall w :: w in answers <==> 0 <= w < started && (w in waiters ==> waiters[w].phase == Answered))
    && NoRepeats(answers)
  }

  ghost predicate StoreInv(x: World) {
    QueuesOk(x.waiters, x.obligations, x.db) && AnswersOk(x.waiters, x.answers, x.started)
  }

  // Every request and every loopback has a waiter.
  ghost predicate Watched(x: World) {
    forall d :: d in x.requests || d in x.loopbacks ==> HasWaiter(x.waiters, d)
  }

  ghost predicate Inv(x: World) {
    StoreInv(x) && Watched(x)
  }

  lemma StartKeepsStore(waiters: map<nat, Waiter>, obligations: map<Digest, seq<nat>>, db: set<Digest>, answers: seq<nat>, started: nat, d: Digest)
    requires QueuesOk(waiters, obligations, db) && AnswersOk(waiters, answers, started)
    ensures QueuesOk(waiters[started := Waiter(d, Starting)], obligations, db)
    ensures AnswersOk(waiters[started := Waiter(d, Starting)], answers, started + 1)
  {
    var waiters' := waiters[started := Waiter(d, Starting)];
    assert started !in waiters && started !in answers;
    forall e, w | w in Queue(obligations, e) ensures w in waiters' && waiters'[w] == Waiter(e, Queued) {
      assert w in waiters && w != started;
    }
  }

  lemma RequestKeepsStore(x: World, d: Digest, resume: Option<Block>)
    requires StoreInv(x)
    ensures StoreInv(OnRequest(x, d, resume))
  {
    StartKeepsStore(x.waiters, x.obligations, x.db, x.answers, x.started, d);
  }

  lemma RequestKeepsWatched(x: World, d: Digest, resume: Option<Block>)
    requires Watched(x) && forall w :: w in x.waiters ==> w < x.started
    ensures Watched(OnRequest(x, d, resume))
  {
    var x' := OnRequest(x, d, resume);
    assert forall w :: w in x.waiters ==> w in x'.waiters && x'.waiters[w] == x.waiters[w];
    forall e | e in x'.requests || e in x'.loopbacks ensures HasWaiter(x'.waiters, e) {
      if e == d && d !in x.requests {
        assert x'.waiters[x.started].digest == d;
      } else {
        assert HasWaiter(x.waiters, e);
        var w :| w in x.waiters && x.waiters[w].digest == e;
        assert x'.waiters[w].digest == e;
      }
    }
  }

  lemma Enqueue(obligations: map<Digest, seq<nat>>, d: Digest, w: nat)
    ensures var o := obligations[d := Queue(obligations, d) + [w]];
            && (forall e, v :: v in Queue(o, e) <==> v in Queue(obligations, e) || (e == d && v == w))
            && (forall e :: e != d ==> Queue(o, e) == Queue(obligations, e))
  {}

  lemma EnqueueListed(waiters: map<nat, Waiter>, obligations: map<Digest, seq<nat>>, d: Digest, w: nat)
    requires Listed(waiters, obligations) && w in waiters && waiters[w] == Waiter(d, Starting)
    ensures Listed(waiters[w := Waiter(d, Queued)], obligations[d := Queue(obligations, d) + [w]])
  {
    Enqueue(obligations, d, w);
  }

  lemma EnqueueNoneTwice(obligations: map<Digest, seq<nat>>, d: Digest, w: nat)
    requires NoneTwice(obligations) && w !in Queue(obligations, d)
    ensures NoneTwice(obligations[d := Queue(obligations, d) + [w]])
  {
    var o := obligations[d := Queue(obligations, d) + [w]];
    forall e: Digest ensures NoRepeats(Queue(o, e)) {
      assert Queue(o, e) == if e == d then Queue(obligations, d) + [w] else Queue(obligations, e);
      assert NoRepeats(Queue(obligations, e));
    }
  }

  lemma QueueKeepsStore(waiters: map<nat, Waiter>, obligations: map<Digest, seq<nat>>, db: set<Digest>, d: Digest, w: nat)
    requires QueuesOk(waiters, obligations, db) && w in waiters && waiters[w] == Waiter(d, Starting) && d !in db
    ensures QueuesOk(waiters[w := Waiter(d, Queued)], obligations[d := Queue(obligations, d) + [w]], db)
  {
    EnqueueListed(waiters, obligations, d, w);
    EnqueueNoneTwice(obligations, d, w);
  }

  lemma AnswerKeepsStore(waiters: map<nat, Waiter>, answers: seq<nat>, started: nat, d: Digest, w: nat)
    requires AnswersOk(waiters, answers, started) && w in waiters && waiters[w] == Waiter(d, Starting)
    ensures AnswersOk(waiters[w := Waiter(d, Answered)], answers + [w], started)
    ensures AnswersOk(waiters[w := Waiter(d, Queued)], answers, started)
  {
    assert forall v :: v in answers + [w] <==> v in answers || v == w;
  }

  lemma AnswerKeepsQueues(waiters: map<nat, Waiter>, obligations: map<Digest, seq<nat>>, db: set<Digest>, d: Digest, w: nat)
    requires QueuesOk(waiters, obligations, db) && w in waiters && waiters[w] == Waiter(d, Starting) && d in db
    ensures QueuesOk(waiters[w := Waiter(d, Answered)], obligations, db)
  {}

  lemma NotifyKeepsStore(x: World, w: nat)
    requires StoreInv(x) && w in x.waiters && x.waiters[w].phase == Starting
    ensures StoreInv(OnNotifyRead(x, w))
  {
    var d := x.waiters[w].digest;
    AnswerKeepsStore(x.waiters, x.answers, x.started, d, w);
    if d in x.db {
      AnswerKeepsQueues(x.waiters, x.obligations, x.db, d, w);
    } else {
      QueueKeepsStore(x.waiters, x.obligations, x.db, d, w);
    }
  }

  lemma SameDigests(x: World, waiters: map<nat, Waiter>)
    requires Watched(x) && waiters.Keys == x.waiters.Keys
    requires forall w :: w in waiters ==> waiters[w].digest == x.waiters[w].digest
    ensures Watched(x.(waiters := waiters))
  {
    forall d | d in x.requests || d in x.loopbacks ensures HasWaiter(waiters, d) {
      assert HasWaiter(x.waiters, d);
      var w :| w in x.waiters && x.waiters[w].digest == d;
      assert waiters[w].digest == d;
    }
  }

  lemma WriteKeepsQueues(waiters: map<nat, Waiter>, obligations: map<Digest, seq<nat>>, db: set<Digest>, d: Digest)
    requires QueuesOk(waiters, obligations, db)
    ensures QueuesOk(Answer(waiters, Queue(obligations, d)), obligations - {d}, db + {d})
  {
    var o := obligations - {d};
    assert forall e :: Queue(o, e) == if e == d then [] else Queue(obligations, e);
  }

  lemma AppendNoRepeats(a: seq<nat>, b: seq<nat>)
    requires NoRepeats(a) && NoRepeats(b) && forall w :: w in a ==> w !in b
    ensures NoRepeats(a + b)
  {
    forall i, j | 0 <= i < j < |a + b| ensures (a + b)[i] != (a + b)[j] {
      if i < |a| <= j {
        assert a[i] in a && b[j - |a|] in b;
      }
    }
  }

  lemma WriteKeepsAnswers(waiters: map<nat, Waiter>, answers: seq<nat>, started: nat, queue: seq<nat>)
    requires AnswersOk(waiters, answers, started) && NoRepeats(queue)
    requires forall w :: w in queue ==> w in waiters && waiters[w].phase == Queued
    ensures AnswersOk(Answer(waiters, queue), answers + queue, started)
  {
    AppendNoRepeats(answers, queue);
    assert forall w :: w in answers + queue <==> w in answers || w in queue;
  }

  lemma WriteKeepsStore(x: World, d: Digest)
    requires StoreInv(x)
    ensures StoreInv(OnWrite(x, d))
  {
    WriteKeepsQueues(x.waiters, x.obligations, x.db, d);
    WriteKeepsAnswers(x.waiters, x.answers, x.started, Queue(x.obligations, d));
  }

  lemma WakeKeepsStore(x: World, w: nat)
    requires StoreInv(x) && w in x.waiters && x.waiters[w].phase == Answered
    ensures StoreInv(OnWake(x, w))
  {}

  lemma WakeKeepsWatched(x: World, w: nat)
    requires Watched(x) && w in x.waiters
    ensures Watched(OnWake(x, w))
  {
    var x' := OnWake(x, w);
    forall e | e in x'.requests || e in x'.loopbacks ensures HasWaiter(x'.waiters, e) {
      assert HasWaiter(x.waiters, e);
      var v :| v in x.waiters && x.waiters[v].digest == e;
      assert v != w && x'.waiters[v].digest == e;
    }
  }

  lemma RequestKeepsInv(x: World, d: Digest, resume: Option<Block>)
    requires Inv(x)
    ensures Inv(OnRequest(x, d, resume))
  {
    RequestKeepsStore(x, d, resume);
    RequestKeepsWatched(x, d, resume);
  }

  lemma NotifyKeepsInv(x: World, w: nat)
    requires Inv(x) && w in x.waiters && x.waiters[w].phase == Starting
    ensures Inv(OnNotifyRead(x, w))
  {
    NotifyKeepsStore(x, w);
    SameDigests(x, OnNotifyRead(x, w).waiters);
  }

  lemma WriteKeepsInv(x: World, d: Digest)
    requires Inv(x)
    ensures Inv(OnWrite(x, d))
  {
    WriteKeepsStore(x, d);
    SameDigests(x, OnWrite(x, d).waiters);
  }

  lemma WakeKeepsInv(x: World, w: nat)
    requires Inv(x) && w in x.waiters && x.waiters[w].phase == Answered
    ensures Inv(OnWake(x, w))
  {
    WakeKeepsStore(x, w);
    WakeKeepsWatched(x, w);
  }

  lemma StepKeepsInv(x: World, e: Event)
    requires Inv(x) && Possible(x, e)
    ensures Inv(Step(x, e))
  {
    match e {
      case Request(d, resume) => RequestKeepsInv(x, d, resume);
      case NotifyRead(w) => NotifyKeepsInv(x, w);
      case Write(d) => WriteKeepsInv(x, d);
      case Wake(w) => WakeKeepsInv(x, w);
    }
  }

  // The world after a sequence of events, or nothing if one of them could not happen.
  function Exec(events: seq<Event>): Option<World> {
    if events == [] then Some(EMPTY)
    else
      match Exec(events[..|events| - 1])
      case Some(x) => if Possible(x, events[|events| - 1]) then Some(Step(x, events[|events| - 1])) else None
      case None => None
  }

  lemma {:induction false} RunKeepsInv(events: seq<Event>)
    requires Exec(events).Some?
    ensures Inv(Exec(events).value)
  {
    if events != [] {
      RunKeepsInv(events[..|events| - 1]);
      StepKeepsInv(Exec(events[..|events| - 1]).value, events[|events| - 1]);
    }
  }

  /**
   No lost wake-up. At any time of any run, a block that is requested or awaited by a loopback
   has a waiter; once the block is written, that waiter has its answer, or will have it as soon
   as it reaches the store.
   */
  lemma NoLostWakeUp(events: seq<Event>, d: Digest) returns (w: nat)
    requires Exec(events).Some?
    requires d in Exec(events).value.requests || d in Exec(events).value.loopbacks
    ensures w in Exec(events).value.waiters && Exec(events).value.waiters[w].digest == d
    ensures d in Exec(events).value.db ==> Exec(events).value.waiters[w].phase != Queued
  {
    var x := Exec(events).value;
    RunKeepsInv(events);
    assert HasWaiter(x.waiters, d);
    w :| w in x.waiters && x.waiters[w].digest == d;
  }

  /** A write answers every waiter queued for its block, and no waiter is ever answered twice. */
  lemma WriteAnswersAll(events: seq<Event>, d: Digest, w: nat)
    requires Exec(events).Some?
    requires w in Exec(events).value.waiters && Exec(events).value.waiters[w] == Waiter(d, Queued)
    ensures OnWrite(Exec(events).value, d).waiters[w].phase == Answered
    ensures w !in Exec(events).value.answers && w in OnWrite(Exec(events).value, d).answers
    ensures NoRepeats(Exec(events).value.answers)
  {
    RunKeepsInv(events);
  }

  // ---------------------------------------------------------------- what the events asked for

  // The world before event k.
  function Before(events: seq<Event>, k: nat): World {
    if k <= |events| && Exec(events[..k]).Some? then Exec(events[..k]).value else EMPTY
  }

  // Event k asks for d.
  predicate Asks(events: seq<Event>, k: nat, d: Digest) {
    k < |events| && events[k].Request? && events[k].d == d
  }

  // ... while d is not requested.
  predicate Opens(events: seq<Event>, k: nat, d: Digest) {
    Asks(events, k, d) && d !in Before(events, k).requests
  }

  // Event k asks for b to be sent back once d is there.
  predicate Registers(events: seq<Event>, k: nat, d: Digest, b: Block) {
    Asks(events, k, d) && events[k].resume == Some(b)
  }

  // Event k is a wake-up for d.
  predicate Wakes(events: seq<Event>, k: nat, d: Digest) {
    k < |events| && events[k].Wake? && events[k].w in Before(events, k).waiters && Before(events, k).waiters[events[k].w].digest == d
  }

  // Event k makes the request for d superfluous: it opens another one to resume from d itself.
  predicate Supersedes(events: seq<Event>, k: nat, d: Digest) {
    k < |events| && events[k].Request? && events[k].d != d && Opens(events, k, events[k].d)
    && events[k].resume.Some? && Hash(events[k].resume.value) == d
  }

  // There was no wake-up for d after event j.
  ghost predicate Unwoken(events: seq<Event>, j: nat, d: Digest) {
    forall k :: j < k < |events| ==> !Wakes(events, k, d)
  }

  // ... and no new request for d was opened.
  ghost predicate Live(events: seq<Event>, j: nat, d: Digest) {
    Unwoken(events, j, d) && forall k :: j < k < |events| ==> !Opens(events, k, d)
  }

  ghost predicate StillAsked(events: seq<Event>, j: nat, d: Digest) {
    Unwoken(events, j, d) && forall k :: j < k < |events| ==> !Supersedes(events, k, d)
  }

  // One event more or less changes nothing about the earlier ones.
  lemma EarlierOne(events: seq<Event>, k: nat, d: Digest)
    requires k < |events| - 1
    ensures var rest := events[..|events| - 1];
            && Asks(events, k, d) == Asks(rest, k, d) && Opens(events, k, d) == Opens(rest, k, d)
            && Wakes(events, k, d) == Wakes(rest, k, d) && Supersedes(events, k, d) == Supersedes(rest, k, d)
  {
    assert events[..k] == events[..|events| - 1][..k];
  }

  lemma Earlier(events: seq<Event>, j: nat, d: Digest)
    requires j < |events| - 1
    ensures var n := |events| - 1; var rest := events[..n];
            && Asks(events, j, d) == Asks(rest, j, d)
            && Unwoken(events, j, d) == (Unwoken(rest, j, d) && !Wakes(events, n, d))
            && Live(events, j, d) == (Live(rest, j, d) && !Wakes(events, n, d) && !Opens(events, n, d))
            && StillAsked(events, j, d) == (StillAsked(rest, j, d) && !Wakes(events, n, d) && !Supersedes(events, n, d))
  {
    var n := |events| - 1;
    var rest := events[..n];
    EarlierOne(events, j, d);
    forall k: nat | k < n ensures Wakes(events, k, d) == Wakes(rest, k, d) {
      EarlierOne(events, k, d);
    }
    forall k: nat | k < n ensures Opens(events, k, d) == Opens(rest, k, d) {
      EarlierOne(events, k, d);
    }
    forall k: nat | k < n ensures Supersedes(events, k, d) == Supersedes(rest, k, d) {
      EarlierOne(events, k, d);
    }
  }

  // What is registered stays until a wake-up.
  lemma {:induction false} RegisteredStays(events: seq<Event>, j: nat, d: Digest, b: Block)
    requires Exec(events).Some? && Registers(events, j, d, b) && Unwoken(events, j, d)
    ensures d in Exec(events).value.loopbacks
  {
    var n := |events| - 1;
    assert Before(events, n) == Exec(events[..n]).value;
    if j < n {
      Earlier(events, j, d);
      RegisteredStays(events[..n], j, d, b);
    }
  }

  // Event i registered the block that is kept for d, and that is the first of the highest that are live.
  ghost predicate KeptFor(events: seq<Event>, i: nat, d: Digest, kept: Block) {
    && Registers(events, i, d, kept) && Unwoken(events, i, d)
    && forall j, b :: Registers(events, j, d, b) && Live(events, j, d) ==> b.round < kept.round || (b.round == kept.round && i <= j)
  }

  lemma {:induction false} LoopbackOrigin(events: seq<Event>, d: Digest) returns (i: nat)
    requires Exec(events).Some? && d in Exec(events).value.loopbacks
    ensures KeptFor(events, i, d, Exec(events).value.loopbacks[d])
  {
    var n := |events| - 1;
    var rest, e := events[..n], events[n];
    var x, x' := Exec(rest).value, Exec(events).value;
    assert Before(events, n) == x;
    if d in x.loopbacks && x'.loopbacks[d] == x.loopbacks[d] && !(Opens(events, n, d) && e.resume.Some?) {
      i := LoopbackOrigin(rest, d);
      StillKept(events, i, d, x.loopbacks[d]);
    } else {
      i := n;
      forall j: nat, b | Registers(events, j, d, b) && Live(events, j, d) && j < n
        ensures b.round < x'.loopbacks[d].round
      {
        Earlier(events, j, d);
        RegisteredStays(rest, j, d, b);
        var i' := LoopbackOrigin(rest, d);
        assert Registers(rest, j, d, b);
      }
    }
  }

  lemma StillKept(events: seq<Event>, i: nat, d: Digest, kept: Block)
    requires events != [] && KeptFor(events[..|events| - 1], i, d, kept) && !Wakes(events, |events| - 1, d)
    requires forall b :: Registers(events, |events| - 1, d, b) ==> b.round <= kept.round
    ensures KeptFor(events, i, d, kept)
  {
    var n := |events| - 1;
    Earlier(events, i, d);
    forall j: nat, b | Registers(events, j, d, b) && Live(events, j, d)
      ensures b.round < kept.round || (b.round == kept.round && i <= j)
    {
      if j < n {
        Earlier(events, j, d);
        assert Registers(events[..n], j, d, b);
      }
    }
  }

  /**
   A wake-up for d sends a block back to the core exactly if one was registered for d since the last
   wake-up for d. It is one of those, and the first of the highest among all that were registered
   since the current request for d was opened.
   */
  lemma DeliversHighest(events: seq<Event>, w: nat) returns (i: nat)
    requires Exec(events).Some? && Possible(Exec(events).value, Wake(w))
    ensures var x := Exec(events).value; var d := x.waiters[w].digest; var sent := OnWake(x, w).delivered;
            || (&& sent == x.delivered && forall j, b :: !(Registers(events, j, d, b) && Unwoken(events, j, d)))
            || (&& |sent| == |x.delivered| + 1 && sent[..|x.delivered|] == x.delivered && KeptFor(events, i, d, sent[|x.delivered|]))
  {
    i := 0;
    var x := Exec(events).value;
    var d := x.waiters[w].digest;
    if d in x.loopbacks {
      i := LoopbackOrigin(events, d);
    } else {
      forall j, b ensures !(Registers(events, j, d, b) && Unwoken(events, j, d)) {
        if Registers(events, j, d, b) && Unwoken(events, j, d) {
          RegisteredStays(events, j, d, b);
        }
      }
    }
  }

  /**
   A block is requested from the committee exactly if it was asked for, and since then it has not
   arrived and no other request was opened to resume from it.
   */
  lemma {:induction false} RequestedIff(events: seq<Event>, d: Digest)
    requires Exec(events).Some?
    ensures d in Exec(events).value.requests <==> exists j :: Asks(events, j, d) && StillAsked(events, j, d)
  {
    if events != [] {
      var n := |events| - 1;
      var rest := events[..n];
      var x := Exec(rest).value;
      RequestedIff(rest, d);
      assert Before(events, n) == x;
      if Asks(events, n, d) {
        assert StillAsked(events, n, d);
      } else if d in x.requests {
        var j :| Asks(rest, j, d) && StillAsked(rest, j, d);
        Earlier(events, j, d);
      }
      if j: nat :| j < n && Asks(events, j, d) && StillAsked(events, j, d) {
        Earlier(events, j, d);
      }
    }
  }

  // ---------------------------------------------------------------- the loops

  class Service {
    var x: World

    constructor ()
      ensures x == EMPTY && Inv(x)
    {
      x := EMPTY;
    }

    // store/src/lib.rs:35-42
    method StoreWrite(d: Digest)
      requires Inv(x)
      modifies this
      ensures Inv(x) && x == OnWrite(old(x), d)
    {
      WriteKeepsInv(x, d);
      var senders := Queue(x.obligations, d);
      var answers := x.answers;
      while senders != []
        invariant answers + senders == old(x).answers + Queue(old(x).obligations, d)
        decreases |senders|
      {
        answers := answers + [senders[0]];
        senders := senders[1..];
      }
      x := x.(db := x.db + {d}, obligations := x.obligations - {d}, answers := answers,
              waiters := Answer(x.waiters, Queue(x.obligations, d)));
    }

    // store/src/lib.rs:47-57
    method StoreNotifyRead(w: nat)
      requires Inv(x) && Possible(x, NotifyRead(w))
      modifies this
      ensures Inv(x) && x == OnNotifyRead(old(x), w)
    {
      NotifyKeepsInv(x, w);
      var key := x.waiters[w].digest;
      if key in x.db {
        x := x.(answers := x.answers + [w], waiters := x.waiters[w := Waiter(key, Answered)]);
      } else {
        x := x.(obligations := x.obligations[key := Queue(x.obligations, key) + [w]], waiters := x.waiters[w := Waiter(key, Queued)]);
      }
    }

    // synchronizer.rs:52-103
    method SyncRequest(d: Digest, resume: Option<Block>)
      requires Inv(x)
      modifies this
      ensures Inv(x) && x == OnRequest(old(x), d, resume)
    {
      RequestKeepsInv(x, d, resume);
      if d in x.requests {
        if resume.Some? {
          if d in x.loopbacks {
            if resume.value.round > x.loopbacks[d].round {
              x := x.(loopbacks := x.loopbacks[d := resume.value]);
            }
          } else {
            x := x.(loopbacks := x.loopbacks[d := resume.value]);
          }
        }
      } else {
        if resume.Some? {
          x := x.(requests := x.requests - {Hash(resume.value)}, loopbacks := x.loopbacks[d := resume.value]);
        }
        x := x.(waiters := x.waiters[x.started := Waiter(d, Starting)], started := x.started + 1);
        x := x.(requests := x.requests + {d});
      }
    }

    // synchronizer.rs:104-119
    method WakeUp(w: nat) returns (resume: Option<Block>)
      requires Inv(x) && Possible(x, Wake(w))
      modifies this
      ensures Inv(x) && x == OnWake(old(x), w)
      ensures resume.Some? <==> old(x).waiters[w].digest in old(x).loopbacks
      ensures resume.Some? ==> x.delivered == old(x).delivered + [resume.value]
    {
      WakeKeepsInv(x, w);
      var requested := x.waiters[w].digest;
      x := x.(waiters := x.waiters - {w}, requests := x.requests - {requested});
      resume := None;
      if requested in x.loopbacks {
        resume := Some(x.loopbacks[requested]);
        x := x.(delivered := x.delivered + [x.loopbacks[requested]]);
      }
      x := x.(loopbacks := x.loopbacks - {requested});
    }
  }
}
