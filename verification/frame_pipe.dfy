/**
 * The frame pipe as a two-thread protocol: a bounded channel of buffers one way, an unbounded
 * channel of returned buffers the other. Every step below is one atomic channel operation of one
 * thread together with that thread's private work up to its next one.
 */
module FramePipe {
  import opened Words

  /** What a frame buffer holds. */
  datatype Picture = Picture(number: nat, width: nat, height: nat, bytes: seq<uint8>)

  type BufferId = nat

  /** Where the publishing thread is inside `publish`. */
  datatype PublisherAt =
    | Resting
    | Collecting(source: Picture)               // draining the recycle channel
    | Taking(source: Picture)                   // found it empty
    | Sending(buffer: BufferId, source: Picture) // holds a filled buffer

  /** Where the drawing thread is inside `poll` or `clear`. */
  datatype SubscriberAt =
    | Drawing
    | Polling
    | PollReturning(buffer: BufferId)
    | Clearing
    | ClearReturning(buffer: BufferId)

  datatype State = State(
    depth: nat,
    contents: map<BufferId, Picture>,
    minted: nat,
    spares: seq<BufferId>,
    frames: seq<BufferId>,
    recycle: seq<BufferId>,
    current: Option<BufferId>,
    publisher: PublisherAt,
    subscriber: SubscriberAt,
    publisherAlive: bool,
    subscriberAlive: bool,
    dropped: nat,
    // What happened, for stating properties.
    freed: seq<BufferId>,
    published: seq<Picture>,
    accepted: seq<Picture>,
    taken: seq<Picture>,
    shown: Option<Picture>)

  const BLANK := Picture(0, 1, 1, [0, 0, 0, 0])

  function Ids(n: nat): (ids: seq<BufferId>)
    ensures |ids| == n
  {
    seq(n, i => i)
  }

  function Blanks(n: nat): map<BufferId, Picture> {
    if n == 0 then map[] else Blanks(n - 1)[n - 1 := BLANK]
  }

  /** `frame_pipe(depth)`: depth is at least one, with one more spare than the channel holds. */
  function Initial(depth: nat): State {
    var d := if depth < 1 then 1 else depth;
    State(d, Blanks(d + 1), d + 1, Ids(d + 1), [], [], None, Resting, Drawing, true, true, 0,
          [], [], [], [], None)
  }

  /** What buffer `b` holds; every buffer reached below is one that was minted. */
  function Held(s: State, b: BufferId): Picture {
    if b in s.contents then s.contents[b] else BLANK
  }

  /** The publishing thread's next atomic step while inside `publish`. */
  function PublisherStep(s: State): State
    requires !s.publisher.Resting?
  {
    match s.publisher
    case Collecting(source) =>
      if s.recycle != [] then s.(spares := s.spares + [s.recycle[0]], recycle := s.recycle[1..])
      else s.(publisher := Taking(source))
    case Taking(source) =>
      if s.spares == [] then
        s.(contents := s.contents[s.minted := source], minted := s.minted + 1,
           publisher := Sending(s.minted, source))
      else
        var b := s.spares[|s.spares| - 1];
        s.(contents := s.contents[b := source], spares := s.spares[..|s.spares| - 1], publisher := Sending(b, source))
    case Sending(b, source) =>
      if !s.subscriberAlive then s.(spares := s.spares + [b], publisher := Resting)
      else if |s.frames| < s.depth then
        s.(frames := s.frames + [b], accepted := s.accepted + [Held(s, b)], publisher := Resting)
      else s.(spares := s.spares + [b], dropped := s.dropped + 1, publisher := Resting)
  }

  /** `recycle.send`: the buffer is freed when nobody is left to reuse it. */
  function GiveBack(s: State, b: BufferId): State {
    if s.publisherAlive then s.(recycle := s.recycle + [b]) else s.(freed := s.freed + [b])
  }

  /** The drawing thread's next atomic step while inside `poll` or `clear`. */
  function SubscriberStep(s: State): State
    requires !s.subscriber.Drawing?
  {
    match s.subscriber
    case Polling =>
      if s.frames == [] then s.(subscriber := Drawing)
      else
        var b := s.frames[0];
        s.(frames := s.frames[1..], taken := s.taken + [Held(s, b)],
           current := Some(b), shown := Some(Held(s, b)),
           subscriber := if s.current.Some? then PollReturning(s.current.value) else Polling)
    case PollReturning(b) => GiveBack(s, b).(subscriber := Polling)
    case Clearing =>
      if s.frames == [] then s.(subscriber := Drawing)
      else
        var b := s.frames[0];
        s.(frames := s.frames[1..], taken := s.taken + [Held(s, b)], subscriber := ClearReturning(b))
    case ClearReturning(b) => GiveBack(s, b).(subscriber := Clearing)
  }

  datatype Action =
    | BeginPublish(source: Picture)
    | Publisher
    | BeginPoll
    | BeginClear
    | Subscriber
    | DropPublisher
    | DropSubscriber

  ghost predicate Enabled(s: State, a: Action) {
    match a
    case BeginPublish(_) => s.publisherAlive && s.publisher.Resting?
    case Publisher => s.publisherAlive && !s.publisher.Resting?
    case BeginPoll => s.subscriberAlive && s.subscriber.Drawing?
    case BeginClear => s.subscriberAlive && s.subscriber.Drawing?
    case Subscriber => s.subscriberAlive && !s.subscriber.Drawing?
    case DropPublisher => s.publisherAlive && s.publisher.Resting?
    case DropSubscriber => s.subscriberAlive && s.subscriber.Drawing?
  }

  function Opt(b: Option<BufferId>): seq<BufferId> {
    if b.Some? then [b.value] else []
  }

  ghost function PublisherHand(s: State): seq<BufferId> {
    if s.publisher.Sending? then [s.publisher.buffer] else []
  }

  ghost function SubscriberHand(s: State): seq<BufferId> {
    match s.subscriber
    case PollReturning(b) => [b]
    case ClearReturning(b) => [b]
    case _ => []
  }

  /** How often `b` occurs in `ids`. */
  ghost function Occurs(ids: seq<BufferId>, b: BufferId): nat {
    if ids == [] then 0 else Occurs(ids[..|ids| - 1], b) + (if ids[|ids| - 1] == b then 1 else 0)
  }

  /** In how many places buffer `b` is: the two threads' hands and stores, the two channels, or freed. */
  ghost function Copies(s: State, b: BufferId): nat {
    Occurs(s.spares, b) + Occurs(s.frames, b) + Occurs(s.recycle, b) + Occurs(Opt(s.current), b) +
    Occurs(PublisherHand(s), b) + Occurs(SubscriberHand(s), b) + Occurs(s.freed, b)
  }

  ghost function Live(s: State): nat {
    |s.spares| + |s.frames| + |s.recycle| + |Opt(s.current)| + |PublisherHand(s)| + |SubscriberHand(s)|
  }

  /** Each buffer ever minted is in exactly one place, or was freed exactly once. */
  ghost predicate Conserved(s: State) {
    forall b: BufferId :: Copies(s, b) == if b < s.minted then 1 else 0
  }

  ghost predicate Bounded(s: State) {
    && s.depth >= 1 && |s.frames| <= s.depth && Live(s) <= s.depth + 3
    && (s.publisher.Taking? && s.spares == [] ==> Live(s) <= s.depth + 2)
  }

  ghost function Pictures(ids: seq<BufferId>, contents: map<BufferId, Picture>): seq<Picture>
    requires forall i :: 0 <= i < |ids| ==> ids[i] in contents
  {
    seq(|ids|, i requires 0 <= i < |ids| => contents[ids[i]])
  }

  /** Nothing in flight or on show has been overwritten since it was published. */
  ghost predicate Faithful(s: State) {
    && (forall i :: 0 <= i < |s.frames| ==> s.frames[i] in s.contents)
    && (s.subscriberAlive ==> s.taken + Pictures(s.frames, s.contents) == s.accepted)
    && (s.subscriberAlive ==> (s.current.Some? <==> s.shown.Some?))
    && (s.current.Some? ==> s.current.value in s.contents && s.shown == Some(s.contents[s.current.value]))
    && (s.publisher.Sending? ==> s.publisher.buffer in s.contents && s.contents[s.publisher.buffer] == s.publisher.source)
  }

  /** `a` appears within `b`, in order. */
  ghost predicate Subsequence(a: seq<Picture>, b: seq<Picture>)
    decreases |b|
  {
    a == [] ||
    (b != [] && (Subsequence(a, b[..|b| - 1]) ||
                 (a[|a| - 1] == b[|b| - 1] && Subsequence(a[..|a| - 1], b[..|b| - 1]))))
  }

  ghost function Settled(s: State): seq<Picture> {
    if s.publisher.Resting? || s.published == [] then s.published else s.published[..|s.published| - 1]
  }

  /** What was accepted came from what was published, in order; the rest was counted or had no consumer. */
  ghost predicate InOrder(s: State) {
    && (!s.publisher.Resting? ==> s.published != [] && s.published[|s.published| - 1] == s.publisher.source)
    && Subsequence(s.accepted, Settled(s))
    && |s.accepted| + s.dropped <= |Settled(s)|
    && (s.subscriberAlive ==> |s.accepted| + s.dropped == |Settled(s)|)
  }

  ghost predicate Invariant(s: State) {
    Conserved(s) && Bounded(s) && Faithful(s) && InOrder(s)
  }

  function Step(s: State, a: Action): State
    requires Enabled(s, a)
  {
    match a
    case BeginPublish(source) => s.(published := s.published + [source], publisher := Collecting(source))
    case Publisher => PublisherStep(s)
    case BeginPoll => s.(subscriber := Polling)
    case BeginClear =>
      if s.current.Some? then s.(current := None, shown := None, subscriber := ClearReturning(s.current.value))
      else s.(subscriber := Clearing)
    case Subscriber => SubscriberStep(s)
    // Dropping an end frees what it holds and what is queued towards it.
    case DropPublisher =>
      s.(publisherAlive := false, freed := s.freed + s.spares + s.recycle, spares := [], recycle := [])
    case DropSubscriber =>
      s.(subscriberAlive := false, freed := s.freed + s.frames + Opt(s.current), frames := [], current := None)
  }

  // ---------------------------------------------------------------------------
  // Every step keeps the invariant
  // ---------------------------------------------------------------------------

  lemma OccursLast(ids: seq<BufferId>, x: BufferId, b: BufferId)
    ensures Occurs(ids + [x], b) == Occurs(ids, b) + if x == b then 1 else 0
  {
    assert (ids + [x])[..|ids|] == ids;
  }

  lemma {:induction false} OccursConcat(p: seq<BufferId>, q: seq<BufferId>, b: BufferId)
    ensures Occurs(p + q, b) == Occurs(p, b) + Occurs(q, b)
  {
    if q == [] {
      assert p + q == p;
    } else {
      assert (p + q)[..|p + q| - 1] == p + q[..|q| - 1];
      OccursConcat(p, q[..|q| - 1], b);
    }
  }

  lemma OccursFirst(ids: seq<BufferId>, b: BufferId)
    requires ids != []
    ensures Occurs(ids, b) == Occurs(ids[1..], b) + if ids[0] == b then 1 else 0
  {
    assert ids == [ids[0]] + ids[1..];
    OccursConcat([ids[0]], ids[1..], b);
    OccursOnce(ids[0], b);
  }

  lemma OccursOnce(x: BufferId, b: BufferId)
    ensures Occurs([x], b) == if x == b then 1 else 0
  {
    assert [x][..0] == [];
  }

  lemma {:induction false} OccursIfIn(ids: seq<BufferId>, b: BufferId)
    ensures Occurs(ids, b) > 0 <==> b in ids
  {
    if ids != [] {
      OccursIfIn(ids[..|ids| - 1], b);
      assert ids == ids[..|ids| - 1] + [ids[|ids| - 1]];
    }
  }

  lemma CollectCopies(s: State, b: BufferId)
    requires s.publisher.Collecting?
    ensures Copies(PublisherStep(s), b) == Copies(s, b)
  {
    if s.recycle != [] {
      OccursFirst(s.recycle, b);
      OccursLast(s.spares, s.recycle[0], b);
    }
  }

  lemma TakeCopies(s: State, b: BufferId)
    requires s.publisher.Taking?
    ensures Copies(PublisherStep(s), b) == Copies(s, b) + if PublisherStep(s).minted > s.minted && b == s.minted then 1 else 0
  {
    if s.spares == [] {
      OccursOnce(s.minted, b);
    } else {
      OccursOnce(s.spares[|s.spares| - 1], b);
    }
  }

  lemma SendCopies(s: State, b: BufferId)
    requires s.publisher.Sending?
    ensures Copies(PublisherStep(s), b) == Copies(s, b)
  {
    var x := s.publisher.buffer;
    OccursOnce(x, b);
    if s.subscriberAlive && |s.frames| < s.depth {
      OccursLast(s.frames, x, b);
    } else {
      OccursLast(s.spares, x, b);
    }
  }

  /** No step of the publishing thread loses or duplicates a buffer; it may mint one. */
  lemma PublisherCopies(s: State, b: BufferId)
    requires Enabled(s, Publisher)
    ensures Copies(PublisherStep(s), b) == Copies(s, b) + if PublisherStep(s).minted > s.minted && b == s.minted then 1 else 0
    ensures PublisherStep(s).minted == s.minted || PublisherStep(s).minted == s.minted + 1
  {
    if s.publisher.Collecting? {
      CollectCopies(s, b);
    } else if s.publisher.Taking? {
      TakeCopies(s, b);
    } else {
      SendCopies(s, b);
    }
  }

  lemma GiveBackCopies(s: State, x: BufferId, b: BufferId)
    ensures Copies(GiveBack(s, x), b) == Copies(s, b) + if x == b then 1 else 0
  {
    if s.publisherAlive {
      OccursLast(s.recycle, x, b);
    } else {
      OccursLast(s.freed, x, b);
    }
  }

  lemma ReturnCopies(s: State, x: BufferId, b: BufferId)
    requires s.subscriber == PollReturning(x) || s.subscriber == ClearReturning(x)
    ensures Copies(SubscriberStep(s), b) == Copies(s, b)
  {
    var given := GiveBack(s, x);
    GiveBackCopies(s, x, b);
    OccursOnce(x, b);
    assert SubscriberHand(given) == [x] && SubscriberHand(SubscriberStep(s)) == [];
    assert PublisherHand(SubscriberStep(s)) == PublisherHand(given);
  }

  lemma ReceiveCopies(s: State, b: BufferId)
    requires s.subscriber.Polling? || s.subscriber.Clearing?
    ensures Copies(SubscriberStep(s), b) == Copies(s, b)
  {
    if s.frames != [] {
      OccursFirst(s.frames, b);
      OccursOnce(s.frames[0], b);
      if s.current.Some? {
        OccursOnce(s.current.value, b);
      }
    }
  }

  /** No step of the drawing thread loses or duplicates a buffer. */
  lemma SubscriberCopies(s: State, b: BufferId)
    requires Enabled(s, Subscriber)
    ensures Copies(SubscriberStep(s), b) == Copies(s, b)
    ensures SubscriberStep(s).minted == s.minted
  {
    match s.subscriber
    case PollReturning(x) => ReturnCopies(s, x, b);
    case ClearReturning(x) => ReturnCopies(s, x, b);
    case _ => ReceiveCopies(s, b);
  }

  lemma OtherCopies(s: State, a: Action, b: BufferId)
    requires Enabled(s, a) && !a.Publisher? && !a.Subscriber?
    ensures Copies(Step(s, a), b) == Copies(s, b)
  {
    match a
    case DropPublisher =>
      OccursConcat(s.freed + s.spares, s.recycle, b);
      OccursConcat(s.freed, s.spares, b);
    case DropSubscriber =>
      OccursConcat(s.freed + s.frames, Opt(s.current), b);
      OccursConcat(s.freed, s.frames, b);
    case _ =>
  }

  lemma StepConserves(s: State, a: Action)
    requires Conserved(s) && Enabled(s, a)
    ensures Conserved(Step(s, a))
  {
    var t := Step(s, a);
    forall b: BufferId ensures Copies(t, b) == if b < t.minted then 1 else 0 {
      if a.Publisher? {
        PublisherCopies(s, b);
      } else if a.Subscriber? {
        SubscriberCopies(s, b);
      } else {
        OtherCopies(s, a, b);
      }
    }
  }

  /** A buffer among the spares is queued nowhere and shown nowhere. */
  lemma SparesArePrivate(s: State, b: BufferId)
    requires Conserved(s) && b in s.spares
    ensures b !in s.frames && s.current != Some(b)
  {
    OccursIfIn(s.spares, b);
    OccursIfIn(s.frames, b);
    OccursIfIn(Opt(s.current), b);
    assert Copies(s, b) <= 1;
  }

  /** Nor is one not minted yet. */
  lemma UnmintedIsNowhere(s: State)
    requires Conserved(s)
    ensures s.minted !in s.frames && s.current != Some(s.minted)
  {
    OccursIfIn(s.frames, s.minted);
    OccursIfIn(Opt(s.current), s.minted);
    assert Copies(s, s.minted) == 0;
  }

  lemma FillKeepsFaithful(s: State, source: Picture)
    requires Conserved(s) && Faithful(s) && s.publisher.Taking?
    ensures Faithful(PublisherStep(s))
  {
    var t := PublisherStep(s);
    if s.spares == [] {
      UnmintedIsNowhere(s);
    } else {
      SparesArePrivate(s, s.spares[|s.spares| - 1]);
    }
    assert Pictures(t.frames, t.contents) == Pictures(s.frames, s.contents);
  }

  lemma SendKeepsFaithful(s: State)
    requires Faithful(s) && s.publisher.Sending?
    ensures Faithful(PublisherStep(s))
  {
    var t, b := PublisherStep(s), s.publisher.buffer;
    if s.subscriberAlive && |s.frames| < s.depth {
      assert Pictures(t.frames, t.contents) == Pictures(s.frames, s.contents) + [s.contents[b]];
    }
  }

  lemma SubscriberFaithful(s: State)
    requires Faithful(s) && Enabled(s, Subscriber)
    ensures Faithful(SubscriberStep(s))
  {
    if s.subscriber.PollReturning? || s.subscriber.ClearReturning? {
      assert SubscriberStep(s).frames == s.frames;
    } else if s.frames != [] {
      assert Pictures(s.frames, s.contents) == [s.contents[s.frames[0]]] + Pictures(s.frames[1..], s.contents);
    }
  }

  lemma StepFaithful(s: State, a: Action)
    requires Conserved(s) && Faithful(s) && Enabled(s, a)
    ensures Faithful(Step(s, a))
  {
    match a
    case Publisher =>
      if s.publisher.Taking? {
        FillKeepsFaithful(s, s.publisher.source);
      } else if s.publisher.Sending? {
        SendKeepsFaithful(s);
      }
    case Subscriber => SubscriberFaithful(s);
    case _ =>
  }

  lemma {:induction false} SubsequenceGrows(a: seq<Picture>, b: seq<Picture>, p: Picture)
    requires Subsequence(a, b)
    ensures Subsequence(a, b + [p]) && Subsequence(a + [p], b + [p])
  {
    assert (b + [p])[..|b|] == b;
    assert (a + [p])[..|a|] == a;
  }

  lemma PublisherInOrder(s: State)
    requires Faithful(s) && InOrder(s) && Enabled(s, Publisher)
    ensures InOrder(PublisherStep(s))
  {
    if s.publisher.Sending? {
      var n := |s.published| - 1;
      assert s.published == s.published[..n] + [s.published[n]];
      SubsequenceGrows(s.accepted, s.published[..n], s.published[n]);
    }
  }

  lemma OthersInOrder(s: State, a: Action)
    requires InOrder(s) && Enabled(s, a) && !a.Publisher?
    ensures InOrder(Step(s, a))
  {
    if a.BeginPublish? {
      assert (s.published + [a.source])[..|s.published|] == s.published;
    } else {
      var t := Step(s, a);
      assert t.published == s.published && t.accepted == s.accepted && t.dropped == s.dropped && t.publisher == s.publisher;
    }
  }

  lemma PublisherBounded(s: State)
    requires Bounded(s) && Enabled(s, Publisher)
    ensures Bounded(PublisherStep(s))
  {
  }

  lemma SubscriberBounded(s: State)
    requires Bounded(s) && Enabled(s, Subscriber)
    ensures Bounded(SubscriberStep(s))
  {
  }

  lemma OthersBounded(s: State, a: Action)
    requires Bounded(s) && Enabled(s, a) && !a.Publisher? && !a.Subscriber?
    ensures Bounded(Step(s, a))
  {
  }

  lemma StepKeepsInvariant(s: State, a: Action)
    requires Invariant(s) && Enabled(s, a)
    ensures Invariant(Step(s, a))
  {
    StepConserves(s, a);
    StepFaithful(s, a);
    if a.Publisher? {
      PublisherInOrder(s);
      PublisherBounded(s);
    } else {
      OthersInOrder(s, a);
      if a.Subscriber? { SubscriberBounded(s); } else { OthersBounded(s, a); }
    }
  }

  lemma InitialInvariant(depth: nat)
    ensures Invariant(Initial(depth))
  {
    var s := Initial(depth);
    assert Pictures([], s.contents) == [];
    forall b: BufferId ensures Copies(s, b) == if b < s.minted then 1 else 0 {
      IdsOccurOnce(s.minted, b);
    }
  }

  lemma {:induction false} IdsOccurOnce(n: nat, b: BufferId)
    ensures Occurs(Ids(n), b) == if b < n then 1 else 0
  {
    if n > 0 {
      IdsOccurOnce(n - 1, b);
      assert Ids(n)[..n - 1] == Ids(n - 1);
    }
  }

  // ---------------------------------------------------------------------------
  // Runs
  // ---------------------------------------------------------------------------

  /** `states` is an execution: some interleaving of the two threads' steps. */
  ghost predicate Execution(states: seq<State>, actions: seq<Action>, depth: nat) {
    && |states| == |actions| + 1 && states[0] == Initial(depth)
    && (forall i :: 0 <= i < |actions| ==>
          Enabled(states[i], actions[i]) && states[i + 1] == Step(states[i], actions[i]))
  }

  lemma {:induction false} ExecutionInvariant(states: seq<State>, actions: seq<Action>, depth: nat, k: nat)
    requires Execution(states, actions, depth) && k < |states|
    ensures Invariant(states[k])
  {
    if k == 0 {
      InitialInvariant(depth);
    } else {
      ExecutionInvariant(states, actions, depth, k - 1);
      StepKeepsInvariant(states[k - 1], actions[k - 1]);
    }
  }

  /** The held frame still has the pixels it arrived with. */
  ghost predicate ShowsWhatArrived(s: State) {
    s.current.Some? ==> s.current.value in s.contents && s.shown == Some(s.contents[s.current.value])
  }

  /**
   * Under every interleaving each minted buffer is in exactly one place, no more than depth + 3
   * are ever alive, and what the subscriber took, followed by what is still queued, is exactly
   * what was accepted, pixel for pixel, in order.
   */
  lemma PipeIsSafe(states: seq<State>, actions: seq<Action>, depth: nat, k: nat)
    requires Execution(states, actions, depth) && k < |states|
    ensures forall b: BufferId :: Copies(states[k], b) == if b < states[k].minted then 1 else 0
    ensures |states[k].recycle| <= Live(states[k]) <= states[k].depth + 3
    ensures states[k].subscriberAlive ==> states[k].taken <= states[k].accepted
    ensures Subsequence(states[k].accepted, states[k].published)
    ensures ShowsWhatArrived(states[k])
  {
    ExecutionInvariant(states, actions, depth, k);
    var s := states[k];
    if !s.publisher.Resting? {
      var n := |s.published| - 1;
      assert s.published == s.published[..n] + [s.published[n]];
      SubsequenceGrows(s.accepted, s.published[..n], s.published[n]);
    }
  }

  // ---------------------------------------------------------------------------
  // Dropping the ends
  // ---------------------------------------------------------------------------

  /** An end that is gone holds nothing. */
  ghost predicate GoneIsEmpty(s: State) {
    && (!s.publisherAlive ==> s.publisher.Resting? && s.spares == [] && s.recycle == [])
    && (!s.subscriberAlive ==> s.subscriber.Drawing? && s.frames == [] && s.current == None)
  }

  lemma StepKeepsGone(s: State, a: Action)
    requires GoneIsEmpty(s) && Enabled(s, a)
    ensures var t := Step(s, a);
      GoneIsEmpty(t) && (t.publisherAlive <==> s.publisherAlive && !a.DropPublisher?) &&
      (t.subscriberAlive <==> s.subscriberAlive && !a.DropSubscriber?) &&
      (!s.publisherAlive ==> t.published == s.published && t.accepted == s.accepted) && (!s.subscriberAlive ==> t.taken == s.taken)
  {
  }

  lemma {:induction false} ExecutionGone(states: seq<State>, actions: seq<Action>, depth: nat, i: nat, k: nat)
    requires Execution(states, actions, depth) && i <= k < |states|
    ensures GoneIsEmpty(states[k])
    ensures !states[i].publisherAlive ==> !states[k].publisherAlive && states[k].published == states[i].published && states[k].accepted == states[i].accepted
    ensures !states[i].subscriberAlive ==> !states[k].subscriberAlive && states[k].taken == states[i].taken
    decreases k
  {
    if k > 0 {
      if i < k {
        ExecutionGone(states, actions, depth, i, k - 1);
      } else {
        ExecutionGone(states, actions, depth, k - 1, k - 1);
      }
      StepKeepsGone(states[k - 1], actions[k - 1]);
    }
  }

  /** Once an end is dropped it does nothing more: nothing is published or accepted without the one, or taken without the other. */
  lemma DroppedEndsStayGone(states: seq<State>, actions: seq<Action>, depth: nat, i: nat, k: nat)
    requires Execution(states, actions, depth) && i < k < |states|
    ensures actions[i].DropPublisher? ==> !states[k].publisherAlive && states[k].published == states[i].published && states[k].accepted == states[i].accepted
    ensures actions[i].DropSubscriber? ==> !states[k].subscriberAlive && states[k].taken == states[i].taken
  {
    ExecutionGone(states, actions, depth, i, i);
    ExecutionGone(states, actions, depth, i + 1, k);
    StepKeepsGone(states[i], actions[i]);
  }

  /** When both ends are gone every buffer ever made has been freed exactly once. */
  lemma NothingLeaks(states: seq<State>, actions: seq<Action>, depth: nat, k: nat)
    requires Execution(states, actions, depth) && k < |states|
    requires !states[k].publisherAlive && !states[k].subscriberAlive
    ensures forall b: BufferId :: Occurs(states[k].freed, b) == if b < states[k].minted then 1 else 0
  {
    var s := states[k];
    ExecutionGone(states, actions, depth, k, k);
    ExecutionInvariant(states, actions, depth, k);
    forall b: BufferId ensures Occurs(s.freed, b) == if b < s.minted then 1 else 0 {
      assert Copies(s, b) == Occurs(s.freed, b);
    }
  }

  // ---------------------------------------------------------------------------
  // The emulation thread never waits
  // ---------------------------------------------------------------------------

  /** Own steps a `publish` has left, however often the subscriber steps in between. */
  ghost function Work(s: State): nat {
    match s.publisher
    case Resting => 0
    case Sending(_, _) => 1
    case Taking(_) => 2
    case Collecting(_) => if |s.spares| <= s.depth + 3 then 3 + s.depth + 3 - |s.spares| else 3
  }

  lemma WorkShrinks(s: State, a: Action)
    requires Invariant(s) && Enabled(s, a) && !s.publisher.Resting?
    ensures if a.Publisher? then Work(Step(s, a)) < Work(s) else Work(Step(s, a)) == Work(s)
  {
  }

  lemma WorkBound(s: State)
    ensures Work(s) <= s.depth + 6
  {
  }

  ghost function PublisherSteps(actions: seq<Action>): nat {
    if actions == [] then 0
    else PublisherSteps(actions[..|actions| - 1]) + if actions[|actions| - 1].Publisher? then 1 else 0
  }

  /**
   * Whatever the drawing thread does meanwhile, even returning buffers as fast as they are collected, one
   * `publish` is over within depth + 6 steps of its own.
   */
  lemma {:induction false} PublishIsWaitFree(states: seq<State>, actions: seq<Action>, depth: nat, i: nat, j: nat)
    requires Execution(states, actions, depth) && i <= j < |states|
    requires forall k :: i <= k < j ==> !states[k].publisher.Resting?
    ensures PublisherSteps(actions[i..j]) + Work(states[j]) <= Work(states[i]) <= states[i].depth + 6
    decreases j - i
  {
    hide Invariant, Initial, Enabled, Step;
    WorkBound(states[i]);
    if i < j {
      PublishIsWaitFree(states, actions, depth, i, j - 1);
      ExecutionInvariant(states, actions, depth, j - 1);
      assert !states[j - 1].publisher.Resting?;
      WorkShrinks(states[j - 1], actions[j - 1]);
      assert actions[i..j][..j - 1 - i] == actions[i..j - 1];
    }
  }

  // ---------------------------------------------------------------------------
  // The bound is exact
  // ---------------------------------------------------------------------------

  ghost predicate Reachable(s: State, depth: nat) {
    exists states, actions :: Execution(states, actions, depth) && states[|states| - 1] == s
  }

  lemma ReachableFrom(s: State, a: Action, depth: nat) returns (t: State)
    requires Reachable(s, depth) && Enabled(s, a)
    ensures t == Step(s, a) && Reachable(t, depth)
  {
    var states, actions :| Execution(states, actions, depth) && states[|states| - 1] == s;
    t := Step(s, a);
    assert Execution(states + [t], actions + [a], depth);
  }

  /** Mid-`poll` or resting, with everything returned collected: a calm point for the publisher. */
  ghost predicate Calm(s: State) {
    s.publisherAlive && s.subscriberAlive && s.publisher.Resting? && s.recycle == []
  }

  /** A whole `publish` with nothing to collect, while the drawing thread stands still. */
  lemma PublishOnce(s: State, depth: nat) returns (t: State)
    requires Reachable(s, depth) && Calm(s)
    ensures Reachable(t, depth) && Calm(t)
    ensures t.depth == s.depth && t.subscriber == s.subscriber && t.current == s.current
    ensures |s.frames| < s.depth ==> |t.frames| == |s.frames| + 1 && |t.spares| == if s.spares == [] then 0 else |s.spares| - 1
    ensures |s.frames| >= s.depth ==> t.frames == s.frames && |t.spares| == if s.spares == [] then 1 else |s.spares|
  {
    t := ReachableFrom(s, BeginPublish(BLANK), depth);
    t := ReachableFrom(t, Publisher, depth);
    t := ReachableFrom(t, Publisher, depth);
    t := ReachableFrom(t, Publisher, depth);
  }

  /** The drawing thread, holding one frame and about to return another, with the channel and spares empty. */
  lemma HoldTwo(depth: nat) returns (s: State)
    ensures Reachable(s, depth) && Calm(s) && s.depth == Initial(depth).depth
    ensures s.subscriber.PollReturning? && s.current.Some? && s.frames == [] && |s.spares| == s.depth - 1
  {
    s := Initial(depth);
    assert Execution([s], [], depth);
    s := PublishOnce(s, depth);
    s := ReachableFrom(s, BeginPoll, depth);
    s := ReachableFrom(s, Subscriber, depth);
    s := PublishOnce(s, depth);
    s := ReachableFrom(s, Subscriber, depth);
  }

  /** Publishing on from there fills the channel and mints two extra buffers. */
  lemma MintTwoMore(depth: nat) returns (s: State)
    ensures Reachable(s, depth) && Calm(s) && s.depth == Initial(depth).depth
    ensures s.subscriber.PollReturning? && s.current.Some? && |s.frames| == s.depth && |s.spares| == 1
    ensures Live(s) == s.depth + 3
  {
    s := HoldTwo(depth);
    while |s.frames| < s.depth
      invariant Reachable(s, depth) && Calm(s) && s.depth == Initial(depth).depth
      invariant s.subscriber.PollReturning? && s.current.Some? && |s.frames| <= s.depth
      invariant |s.spares| == if |s.frames| < s.depth then s.depth - 1 - |s.frames| else 0
      decreases s.depth - |s.frames|
    {
      s := PublishOnce(s, depth);
    }
    s := PublishOnce(s, depth);
  }

  /** While the publisher stands still, `poll` drains the channel into the recycle channel. */
  lemma DrainAll(s0: State, depth: nat) returns (s: State)
    requires Reachable(s0, depth) && s0.publisherAlive && s0.subscriberAlive
    requires s0.subscriber.PollReturning? && s0.current.Some?
    ensures Reachable(s, depth) && s.publisherAlive && s.subscriberAlive && s.publisher == s0.publisher && s.depth == s0.depth
    ensures s.subscriber.Polling? && s.current.Some? && s.frames == []
    ensures |s.recycle| == |s0.recycle| + 1 + |s0.frames|
  {
    s := ReachableFrom(s0, Subscriber, depth);
    while s.frames != []
      invariant Reachable(s, depth) && s.publisherAlive && s.subscriberAlive && s.publisher == s0.publisher && s.depth == s0.depth
      invariant s.subscriber.Polling? && s.current.Some?
      invariant |s.recycle| + |s.frames| == |s0.recycle| + 1 + |s0.frames|
      decreases |s.frames|
    {
      s := ReachableFrom(s, Subscriber, depth);
      s := ReachableFrom(s, Subscriber, depth);
    }
  }

  /** For every depth some interleaving puts depth + 3 buffers into the recycle channel at once. */
  lemma BoundIsAttained(depth: nat) returns (s: State)
    ensures Reachable(s, depth) && |s.recycle| == s.depth + 3 && s.depth == Initial(depth).depth
  {
    s := MintTwoMore(depth);
    s := ReachableFrom(s, BeginPublish(BLANK), depth);
    s := ReachableFrom(s, Publisher, depth);
    s := ReachableFrom(s, Publisher, depth);
    s := DrainAll(s, depth);
    s := ReachableFrom(s, Publisher, depth);
    s := ReachableFrom(s, Subscriber, depth);
    s := ReachableFrom(s, Subscriber, depth);
    s := ReachableFrom(s, Subscriber, depth);
    s := ReachableFrom(s, BeginClear, depth);
    s := ReachableFrom(s, Subscriber, depth);
  }

  /**
   * The source says the recycle channel holds at most `depth` plus the initial `depth + 1` spares.
   * That is so exactly when the depth is at least two.
   */
  lemma DocumentedBoundNeedsDepthTwo(depth: nat)
    ensures (forall s :: Reachable(s, depth) ==> |s.recycle| <= s.depth + (s.depth + 1)) <==> depth >= 2
  {
    if depth >= 2 {
      forall s | Reachable(s, depth) ensures |s.recycle| <= s.depth + (s.depth + 1) {
        var states, actions :| Execution(states, actions, depth) && states[|states| - 1] == s;
        PipeIsSafe(states, actions, depth, |states| - 1);
        DepthIsFixed(states, actions, depth, |states| - 1);
      }
    } else {
      var s := BoundIsAttained(depth);
    }
  }

  lemma {:induction false} DepthIsFixed(states: seq<State>, actions: seq<Action>, depth: nat, k: nat)
    requires Execution(states, actions, depth) && k < |states|
    ensures states[k].depth == Initial(depth).depth
  {
    if k > 0 {
      DepthIsFixed(states, actions, depth, k - 1);
    }
  }

  // ---------------------------------------------------------------------------
  // The calls themselves, each running alone
  // ---------------------------------------------------------------------------

  ghost function RunPublisher(s: State): State
    requires s.publisherAlive && s.subscriberAlive
    decreases match s.publisher case Resting => 0 case Sending(_, _) => 1 case Taking(_) => 2 case Collecting(_) => 3 + |s.recycle|
  {
    if s.publisher.Resting? then s else RunPublisher(PublisherStep(s))
  }

  ghost function RunSubscriber(s: State): State
    requires s.publisherAlive && s.subscriberAlive
    decreases |s.frames|, match s.subscriber case Drawing => 0 case Polling => 1 case Clearing => 1 case _ => 2
  {
    if s.subscriber.Drawing? then s else RunSubscriber(SubscriberStep(s))
  }

  /** Both ends, between calls. */
  ghost predicate Between(s: State) {
    s.publisherAlive && s.subscriberAlive && s.publisher.Resting? && s.subscriber.Drawing?
  }

  ghost function PublishAlone(s: State, source: Picture): State
    requires Between(s)
  {
    RunPublisher(Step(s, BeginPublish(source)))
  }

  ghost function PollAlone(s: State): State
    requires Between(s)
  {
    RunSubscriber(Step(s, BeginPoll))
  }

  ghost function ClearAlone(s: State): State
    requires Between(s)
  {
    RunSubscriber(Step(s, BeginClear))
  }

  /** The two ends in the source's own form; each call is the run of its thread's steps. */
  class Pipe {
    const depth: nat
    var contents: map<BufferId, Picture>
    var minted: nat
    var spares: seq<BufferId>
    var frames: seq<BufferId>
    var recycle: seq<BufferId>
    var current: Option<BufferId>
    var dropped: nat
    ghost var published: seq<Picture>
    ghost var accepted: seq<Picture>
    ghost var taken: seq<Picture>
    ghost var shown: Option<Picture>

    ghost function View(publisher: PublisherAt, subscriber: SubscriberAt): State
      reads this
    {
      State(depth, contents, minted, spares, frames, recycle, current, publisher, subscriber, true, true, dropped,
            [], published, accepted, taken, shown)
    }

    constructor (depth: nat)
      ensures View(Resting, Drawing) == Initial(depth)
    {
      var d := if depth < 1 then 1 else depth;
      this.depth := d;
      contents, minted, spares := Blanks(d + 1), d + 1, Ids(d + 1);
      frames, recycle, current, dropped := [], [], None, 0;
      published, accepted, taken, shown := [], [], [], None;
    }

    method CollectReturned(ghost source: Picture)
      modifies this`spares, this`recycle
      ensures recycle == []
      ensures RunPublisher(View(Collecting(source), Drawing)) == RunPublisher(old(View(Collecting(source), Drawing)))
    {
      while recycle != []
        invariant RunPublisher(View(Collecting(source), Drawing)) == RunPublisher(old(View(Collecting(source), Drawing)))
        decreases |recycle|
      {
        ghost var before := View(Collecting(source), Drawing);
        spares := spares + [recycle[0]];
        recycle := recycle[1..];
        assert View(Collecting(source), Drawing) == PublisherStep(before);
      }
    }

    /** Pop a spare, or mint a buffer if there is none, and copy the picture in. */
    method TakeAndFill(source: Picture) returns (buffer: BufferId)
      modifies this`contents, this`minted, this`spares
      ensures View(Sending(buffer, source), Drawing) == PublisherStep(old(View(Taking(source), Drawing)))
    {
      if spares == [] {
        buffer := minted;
        minted := minted + 1;
      } else {
        buffer := spares[|spares| - 1];
        spares := spares[..|spares| - 1];
      }
      contents := contents[buffer := source];
    }

    method Publish(source: Picture) returns (sent: bool)
      modifies this
      ensures View(Resting, Drawing) == PublishAlone(old(View(Resting, Drawing)), source)
      ensures sent <==> |old(frames)| < depth
    {
      ghost var result := PublishAlone(View(Resting, Drawing), source);
      published := published + [source];
      CollectReturned(source);
      assert View(Taking(source), Drawing) == PublisherStep(View(Collecting(source), Drawing));
      var buffer := TakeAndFill(source);
      ghost var sending := View(Sending(buffer, source), Drawing);
      assert RunPublisher(sending) == result;
      if |frames| < depth {
        frames := frames + [buffer];
        accepted := accepted + [source];
        sent := true;
      } else {
        spares := spares + [buffer];
        dropped := dropped + 1;
        sent := false;
      }
      assert View(Resting, Drawing) == PublisherStep(sending);
      assert RunPublisher(View(Resting, Drawing)) == result;
    }

    method Poll() returns (updated: bool)
      modifies this`frames, this`current, this`recycle, this`taken, this`shown
      ensures View(Resting, Drawing) == PollAlone(old(View(Resting, Drawing)))
      ensures updated <==> old(frames) != []
    {
      updated := false;
      while frames != []
        invariant RunSubscriber(View(Resting, Polling)) == RunSubscriber(old(View(Resting, Polling)))
        invariant updated <==> |frames| < |old(frames)|
        decreases |frames|
      {
        ghost var before := View(Resting, Polling);
        var frame, old' := frames[0], current;
        frames := frames[1..];
        current := Some(frame);
        taken, shown := taken + [Held(before, frame)], Some(Held(before, frame));
        if old'.Some? {
          assert View(Resting, PollReturning(old'.value)) == SubscriberStep(before);
          recycle := recycle + [old'.value];
          assert View(Resting, Polling) == SubscriberStep(SubscriberStep(before));
        } else {
          assert View(Resting, Polling) == SubscriberStep(before);
        }
        updated := true;
      }
    }

    method Clear()
      modifies this`frames, this`current, this`recycle, this`taken, this`shown
      ensures View(Resting, Drawing) == ClearAlone(old(View(Resting, Drawing)))
    {
      ghost var start := View(Resting, Drawing);
      ghost var held := current;
      if current.Some? {
        recycle := recycle + [current.value];
        current, shown := None, None;
        assert View(Resting, Clearing) == SubscriberStep(Step(start, BeginClear));
      }
      while frames != []
        invariant RunSubscriber(View(Resting, Clearing)) == ClearAlone(start)
        decreases |frames|
      {
        ghost var before := View(Resting, Clearing);
        var frame := frames[0];
        frames := frames[1..];
        taken := taken + [Held(before, frame)];
        assert View(Resting, ClearReturning(frame)) == SubscriberStep(before);
        recycle := recycle + [frame];
        assert View(Resting, Clearing) == SubscriberStep(SubscriberStep(before));
      }
    }
  }

  /** `poll` alone ends holding the newest frame, everything older having been handed back. */
  lemma {:induction false} PollTakesTheNewest(s: State)
    requires s.publisherAlive && s.subscriberAlive && s.subscriber.Polling?
    ensures var t := RunSubscriber(s);
      t.frames == [] && t.subscriber.Drawing? && t.minted == s.minted && t.spares == s.spares &&
      t.current == (if s.frames == [] then s.current else Some(s.frames[|s.frames| - 1])) &&
      t.recycle == s.recycle + (if s.frames == [] then [] else Opt(s.current) + s.frames[..|s.frames| - 1])
    decreases |s.frames|
  {
    if s.frames != [] {
      var t := SubscriberStep(s);
      if s.current.Some? {
        t := SubscriberStep(t);
      }
      PollTakesTheNewest(t);
      var rest := if t.frames == [] then [] else t.frames[..|t.frames| - 1];
      assert t.recycle == s.recycle + Opt(s.current);
      HandedBack(s.recycle, Opt(s.current), s.frames);
    } else {
      assert RunSubscriber(SubscriberStep(s)) == SubscriberStep(s);
    }
  }

  lemma HandedBack(recycle: seq<BufferId>, held: seq<BufferId>, frames: seq<BufferId>)
    requires frames != []
    ensures recycle + held + (if |frames| == 1 then [] else [frames[0]] + frames[1..][..|frames| - 2]) ==
      recycle + (held + frames[..|frames| - 1])
  {
    if |frames| > 1 {
      assert frames[..|frames| - 1] == [frames[0]] + frames[1..][..|frames| - 2];
    }
  }

  /** `clear` alone releases the held frame and the whole queue. */
  lemma {:induction false} ClearReleasesEverything(s: State)
    requires s.publisherAlive && s.subscriberAlive && s.subscriber.Clearing?
    ensures var t := RunSubscriber(s);
      t.frames == [] && t.subscriber.Drawing? && t.current == s.current && t.recycle == s.recycle + s.frames
    decreases |s.frames|
  {
    if s.frames != [] {
      ClearReleasesEverything(SubscriberStep(SubscriberStep(s)));
    } else {
      assert RunSubscriber(SubscriberStep(s)) == SubscriberStep(s);
    }
  }

  /** `publish` alone first reclaims everything returned, then mints only if nothing was free. */
  lemma {:induction false} PublishReclaims(s: State)
    requires s.publisherAlive && s.subscriberAlive && s.publisher.Collecting?
    ensures var t, free := RunPublisher(s), |s.spares| + |s.recycle|;
      t.publisher.Resting? && t.recycle == [] && t.current == s.current && t.subscriber == s.subscriber &&
      t.minted == s.minted + (if free == 0 then 1 else 0) &&
      (if |s.frames| < s.depth then
         |t.frames| == |s.frames| + 1 && t.frames[..|s.frames|] == s.frames && t.accepted == s.accepted + [s.publisher.source] &&
         t.dropped == s.dropped && |t.spares| == (if free == 0 then 0 else free - 1) &&
         Held(t, t.frames[|s.frames|]) == s.publisher.source
       else
         t.frames == s.frames && t.accepted == s.accepted && t.dropped == s.dropped + 1)
    decreases |s.recycle|
  {
    if s.recycle != [] {
      PublishReclaims(PublisherStep(s));
    } else {
      var taking := PublisherStep(s);
      var sending := PublisherStep(taking);
      var t := PublisherStep(sending);
      assert RunPublisher(s) == RunPublisher(taking) == RunPublisher(sending) == RunPublisher(t) == t;
    }
  }

  ghost function Alternate(s: State, sources: seq<Picture>): State
    requires Between(s)
    decreases |sources|
  {
    if sources == [] then s else
      var p := PublishAlone(s, sources[0]);
      if !Between(p) then p else
        var q := PollAlone(p);
        if !Between(q) then q else Alternate(q, sources[1..])
  }

  /**
   * Publishing and polling in turn, for as long as one likes, allocates nothing beyond the initial
   * buffers, drops nothing, and leaves the last published picture on show.
   */
  lemma {:induction false} SteadyStateNeverAllocates(s: State, sources: seq<Picture>)
    requires Between(s) && s.depth >= 1 && s.frames == []
    requires |s.spares| + |s.recycle| + |Opt(s.current)| >= 2
    ensures var t := Alternate(s, sources);
      Between(t) && t.minted == s.minted && t.dropped == s.dropped && t.accepted == s.accepted + sources
    decreases |sources|
  {
    if sources == [] {
      assert s.accepted + [] == s.accepted;
    } else {
      var b := Step(s, BeginPublish(sources[0]));
      PublishReclaims(b);
      var p := PublishAlone(s, sources[0]);
      RunKeepsAlive(b);
      PollTakesTheNewest(Step(p, BeginPoll));
      SubscriberLeavesPublisher(Step(p, BeginPoll));
      var q := PollAlone(p);
      SteadyStateNeverAllocates(q, sources[1..]);
      assert s.accepted + [sources[0]] + sources[1..] == s.accepted + sources;
    }
  }

  lemma {:induction false} RunKeepsAlive(s: State)
    requires s.publisherAlive && s.subscriberAlive
    ensures var t := RunPublisher(s); t.publisherAlive && t.subscriberAlive && t.depth == s.depth
    decreases match s.publisher case Resting => 0 case Sending(_, _) => 1 case Taking(_) => 2 case Collecting(_) => 3 + |s.recycle|
  {
    if !s.publisher.Resting? {
      RunKeepsAlive(PublisherStep(s));
    }
  }

  lemma {:induction false} SubscriberLeavesPublisher(s: State)
    requires s.publisherAlive && s.subscriberAlive
    ensures var t := RunSubscriber(s);
      t.publisherAlive && t.subscriberAlive && t.depth == s.depth && t.publisher == s.publisher &&
      t.dropped == s.dropped && t.accepted == s.accepted && t.minted == s.minted
    decreases |s.frames|, match s.subscriber case Drawing => 0 case Polling => 1 case Clearing => 1 case _ => 2
  {
    if !s.subscriber.Drawing? {
      SubscriberLeavesPublisher(SubscriberStep(s));
    }
  }
}
