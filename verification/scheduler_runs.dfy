/** The scheduler over whole runs of operations, and its save-state encoding. */
module SchedulerRuns {
  import opened Words
  import opened Scheduling

  /** What a scheduler logically is: pending entries in firing order and the next handle. */
  datatype Logical<E> = Logical(pending: seq<Entry<E>>, next: nat)

  datatype Operation<!E> =
    | Schedule(when: nat, event: E)
    | Cancel(handle: nat)
    | CancelMatching(pred: E -> bool)
    | PopDue(now: nat)
    | Clear

  function Apply<E>(s: Logical<E>, op: Operation<E>): Logical<E> {
    match op
    case Schedule(when, event) => Logical(Insert(s.pending, Entry(when, s.next, event)), s.next + 1)
    case Cancel(handle) => s.(pending := Filter(s.pending, (e: Entry<E>) => e.serial != handle))
    case CancelMatching(pred) => s.(pending := Filter(s.pending, (e: Entry<E>) => !pred(e.event)))
    case PopDue(now) => if s.pending != [] && s.pending[0].when <= now then s.(pending := s.pending[1..]) else s
    case Clear => s.(pending := [])
  }

  function Run<E>(s: Logical<E>, ops: seq<Operation<E>>): Logical<E>
    decreases |ops|
  {
    if ops == [] then s else Run(Apply(s, ops[0]), ops[1..])
  }

  /** Every class operation is the logical one. */
  method Perform<E>(s: Scheduler<E>, op: Operation<E>)
    requires s.Valid()
    modifies s
    ensures s.Valid()
    ensures Logical(s.Pending(), s.nextSeq) == Apply(Logical(old(s.Pending()), old(s.nextSeq)), op)
  {
    match op
    case Schedule(when, event) => var _ := s.Schedule(when, event);
    case Cancel(handle) => var _ := s.Cancel(handle);
    case CancelMatching(pred) => var _ := s.CancelMatching(pred);
    case PopDue(now) => var _ := s.PopDue(now);
    case Clear => s.Clear();
  }

  method PerformAll<E>(s: Scheduler<E>, ops: seq<Operation<E>>)
    requires s.Valid()
    modifies s
    ensures s.Valid()
    ensures Logical(s.Pending(), s.nextSeq) == Run(Logical(old(s.Pending()), old(s.nextSeq)), ops)
  {
    ghost var start := Logical(s.Pending(), s.nextSeq);
    for i := 0 to |ops|
      invariant s.Valid()
      invariant Run(Logical(s.Pending(), s.nextSeq), ops[i..]) == Run(start, ops)
    {
      assert ops[i..][1..] == ops[i + 1..];
      Perform(s, ops[i]);
    }
  }

  ghost predicate Sound<E>(s: Logical<E>) {
    Ordered(s.pending) && DistinctSerials(s.pending) && SerialsBelow(s.pending, s.next)
  }

  lemma ApplyKeepsSound<E>(s: Logical<E>, op: Operation<E>)
    requires Sound(s)
    ensures Sound(Apply(s, op)) && s.next <= Apply(s, op).next
  {
    match op
    case Schedule(when, event) =>
      InsertKeepsOrder(s.pending, Entry(when, s.next, event));
      InsertedSerials(s.pending, Entry(when, s.next, event));
    case Cancel(handle) =>
      RetainedContents(s.pending, s.pending, (e: Entry<E>) => e.serial != handle, s.next);
    case CancelMatching(pred) =>
      RetainedContents(s.pending, s.pending, (e: Entry<E>) => !pred(e.event), s.next);
    case PopDue(now) =>
    case Clear =>
  }

  /** From a fresh scheduler, any run fires in timestamp order with ties in scheduling order. */
  lemma {:induction false} RunsStaySound<E>(s: Logical<E>, ops: seq<Operation<E>>)
    requires Sound(s)
    ensures Sound(Run(s, ops)) && s.next <= Run(s, ops).next
    decreases |ops|
  {
    if ops != [] {
      ApplyKeepsSound(s, ops[0]);
      RunsStaySound(Apply(s, ops[0]), ops[1..]);
    }
  }

  lemma TiesFireInSchedulingOrder<E>(ops: seq<Operation<E>>, i: nat, j: nat)
    requires var p := Run(Logical([], 0), ops).pending; i < |p| && j < |p| && p[i].when == p[j].when
    ensures var p := Run(Logical([], 0), ops).pending; p[i].serial < p[j].serial <==> i < j
  {
    RunsStaySound<E>(Logical([], 0), ops);
    var p := Run(Logical([], 0), ops).pending;
    assert i < j ==> Sooner(p[i], p[j]);
    assert j < i ==> Sooner(p[j], p[i]);
  }

  ghost predicate IsPending<E>(s: Logical<E>, handle: nat) {
    exists i :: 0 <= i < |s.pending| && s.pending[i].serial == handle
  }

  lemma ApplyRevivesNothing<E>(s: Logical<E>, op: Operation<E>, handle: nat)
    requires handle < s.next && !IsPending(s, handle)
    ensures !IsPending(Apply(s, op), handle)
  {
    match op
    case Schedule(when, event) =>
      var e := Entry(when, s.next, event);
      InsertPermutes(s.pending, e);
      PermutationFacts(Insert(s.pending, e), s.pending + [e]);
    case Cancel(h) => FilterDraws(s.pending, (e: Entry<E>) => e.serial != h);
    case CancelMatching(pred) => FilterDraws(s.pending, (e: Entry<E>) => !pred(e.event));
    case PopDue(now) =>
    case Clear =>
  }

  lemma {:induction false} FilterDraws<E>(p: seq<Entry<E>>, keep: Entry<E> -> bool)
    ensures forall i :: 0 <= i < |Filter(p, keep)| ==> Filter(p, keep)[i] in p
  {
    if p != [] {
      FilterDraws(p[1..], keep);
      assert p == [p[0]] + p[1..];
    }
  }

  /** A handle whose event has fired or been cancelled never cancels anything again. */
  lemma {:induction false} StaleHandleCancelsNothing<E>(s: Logical<E>, ops: seq<Operation<E>>, handle: nat)
    requires Sound(s) && handle < s.next && !IsPending(s, handle)
    ensures Apply(Run(s, ops), Cancel(handle)) == Run(s, ops)
    decreases |ops|
  {
    if ops == [] {
      FilterLength(s.pending, (e: Entry<E>) => e.serial != handle);
    } else {
      ApplyKeepsSound(s, ops[0]);
      ApplyRevivesNothing(s, ops[0], handle);
      StaleHandleCancelsNothing(Apply(s, ops[0]), ops[1..], handle);
    }
  }

  // ---------------------------------------------------------------------------
  // Save states
  // ---------------------------------------------------------------------------

  /** How an event type is written to and read from a byte stream. */
  datatype Codec<!E> = Codec(enc: E -> seq<uint8>, dec: seq<uint8> -> Option<(E, seq<uint8>)>)

  ghost predicate Faithful<E(!new)>(c: Codec<E>) {
    forall e, tail :: c.dec(c.enc(e) + tail) == Some((e, tail))
  }

  const TWO64: nat := 0x1_0000_0000_0000_0000

  ghost predicate Fits<E>(s: Logical<E>) {
    s.next < TWO64 && |s.pending| < TWO64 &&
    forall i :: 0 <= i < |s.pending| ==> s.pending[i].when < TWO64 && s.pending[i].serial < TWO64
  }

  function ReadU64(bytes: seq<uint8>): Option<(nat, seq<uint8>)> {
    if |bytes| < 8 then None else Some((FromLittleEndian(bytes[..8]), bytes[8..]))
  }

  lemma ReadU64Written(x: nat, tail: seq<uint8>)
    requires x < TWO64
    ensures ReadU64(ToLittleEndian(x, 8) + tail) == Some((x, tail))
  {
    Pow256Of8();
    LittleEndianRoundTrip(x, 8);
    var all := ToLittleEndian(x, 8) + tail;
    assert all[..8] == ToLittleEndian(x, 8) && all[8..] == tail;
  }

  function EncodeEntries<E>(p: seq<Entry<E>>, c: Codec<E>): seq<uint8> {
    if p == [] then []
    else ToLittleEndian(p[0].when, 8) + (ToLittleEndian(p[0].serial, 8) + (c.enc(p[0].event) + EncodeEntries(p[1..], c)))
  }

  function Encode<E>(s: Logical<E>, c: Codec<E>): seq<uint8> {
    ToLittleEndian(s.next, 8) + (ToLittleEndian(|s.pending|, 8) + EncodeEntries(s.pending, c))
  }

  function DecodeEntry<E>(bytes: seq<uint8>, c: Codec<E>): Option<(Entry<E>, seq<uint8>)> {
    match ReadU64(bytes)
    case None => None
    case Some((when, rest)) =>
      match ReadU64(rest)
      case None => None
      case Some((serial, rest')) =>
        match c.dec(rest')
        case None => None
        case Some((event, rest'')) => Some((Entry(when, serial, event), rest''))
  }

  function DecodeEntries<E>(bytes: seq<uint8>, n: nat, c: Codec<E>): Option<(seq<Entry<E>>, seq<uint8>)>
    decreases n
  {
    if n == 0 then Some(([], bytes))
    else match DecodeEntry(bytes, c)
      case None => None
      case Some((e, rest)) =>
        match DecodeEntries(rest, n - 1, c)
        case None => None
        case Some((es, rest')) => Some(([e] + es, rest'))
  }

  lemma TailMovesIn(a: seq<uint8>, b: seq<uint8>, c: seq<uint8>, d: seq<uint8>, tail: seq<uint8>)
    ensures a + (b + (c + d)) + tail == a + (b + (c + (d + tail)))
  {
  }

  lemma {:induction false} EntriesRoundTrip<E(!new)>(p: seq<Entry<E>>, c: Codec<E>, tail: seq<uint8>)
    requires Faithful(c)
    requires forall i :: 0 <= i < |p| ==> p[i].when < TWO64 && p[i].serial < TWO64
    ensures DecodeEntries(EncodeEntries(p, c) + tail, |p|, c) == Some((p, tail))
    ensures |EncodeEntries(p, c)| >= |p|
  {
    if p == [] {
      assert [] + tail == tail;
    } else {
      EntriesRoundTrip(p[1..], c, tail);
      var rest := EncodeEntries(p[1..], c) + tail;
      ReadU64Written(p[0].serial, c.enc(p[0].event) + rest);
      ReadU64Written(p[0].when, ToLittleEndian(p[0].serial, 8) + (c.enc(p[0].event) + rest));
      TailMovesIn(ToLittleEndian(p[0].when, 8), ToLittleEndian(p[0].serial, 8), c.enc(p[0].event), EncodeEntries(p[1..], c), tail);
      assert p == [p[0]] + p[1..];
    }
  }

  /** `save`: the bytes are a function of the logical contents alone. */
  method Save<E>(s: Scheduler<E>, c: Codec<E>) returns (bytes: seq<uint8>)
    requires s.Valid()
    ensures bytes == Encode(Logical(s.Pending(), s.nextSeq), c)
  {
    var entries := s.Pending();
    bytes := ToLittleEndian(s.nextSeq, 8) + ToLittleEndian(|entries|, 8);
    for i := 0 to |entries|
      invariant bytes + EncodeEntries(entries[i..], c) == Encode(Logical(s.Pending(), s.nextSeq), c)
    {
      assert entries[i..][1..] == entries[i + 1..];
      bytes := bytes + ToLittleEndian(entries[i].when, 8) + ToLittleEndian(entries[i].serial, 8) + c.enc(entries[i].event);
    }
  }

  /** The counter, then a length checked against what remains, then that many entries. */
  function Decode<E>(bytes: seq<uint8>, c: Codec<E>): Option<(Logical<E>, seq<uint8>)> {
    match ReadU64(bytes)
    case None => None
    case Some((next, body)) =>
      match ReadU64(body)
      case None => None
      case Some((n, tail)) =>
        if n > |tail| then None
        else match DecodeEntries(tail, n, c)
          case None => None
          case Some((es, rest)) => Some((Logical(es, next), rest))
  }

  lemma RoundTrip<E(!new)>(s: Logical<E>, c: Codec<E>, tail: seq<uint8>)
    requires Faithful(c) && Fits(s)
    ensures Decode(Encode(s, c) + tail, c) == Some((s, tail))
  {
    EntriesRoundTrip(s.pending, c, tail);
    var body := EncodeEntries(s.pending, c) + tail;
    ReadU64Written(|s.pending|, body);
    ReadU64Written(s.next, ToLittleEndian(|s.pending|, 8) + body);
    assert Encode(s, c) + tail == ToLittleEndian(s.next, 8) + (ToLittleEndian(|s.pending|, 8) + body);
  }

  ghost function Prepend<E>(done: seq<Entry<E>>, r: Option<(seq<Entry<E>>, seq<uint8>)>): Option<(seq<Entry<E>>, seq<uint8>)> {
    match r
    case None => None
    case Some((es, rest)) => Some((done + es, rest))
  }

  lemma PrependStep<E>(done: seq<Entry<E>>, left: seq<uint8>, n: nat, c: Codec<E>)
    requires n > 0
    ensures Prepend(done, DecodeEntries(left, n, c)) ==
      match DecodeEntry(left, c) {
        case None => None
        case Some((e, after)) => Prepend(done + [e], DecodeEntries(after, n - 1, c))
      }
  {
    match DecodeEntry(left, c)
    case None =>
    case Some((e, after)) =>
      match DecodeEntries(after, n - 1, c)
      case None =>
      case Some((es, rest)) => assert done + ([e] + es) == (done + [e]) + es;
  }

  lemma OneMoreDone<E>(done: seq<Entry<E>>, e: Entry<E>)
    ensures multiset(done + [e]) == multiset(done) + multiset{e}
  {
  }

  method LoadEntries<E>(s: Scheduler<E>, c: Codec<E>, bytes: seq<uint8>, n: nat) returns (rest: Option<seq<uint8>>)
    requires s.heap == []
    modifies s`heap
    ensures HeapOrdered(s.heap)
    ensures rest.Some? <==> DecodeEntries(bytes, n, c).Some?
    ensures rest.Some? ==>
      multiset(s.heap) == multiset(DecodeEntries(bytes, n, c).value.0) && rest.value == DecodeEntries(bytes, n, c).value.1
  {
    var left := bytes;
    ghost var done: seq<Entry<E>> := [];
    ghost var all := DecodeEntries(bytes, n, c);
    PrependNothing(all);
    for i := 0 to n
      invariant HeapOrdered(s.heap) && multiset(s.heap) == multiset(done)
      invariant all == Prepend(done, DecodeEntries(left, n - i, c))
    {
      PrependStep(done, left, n - i, c);
      match DecodeEntry(left, c) {
        case None => return None;
        case Some((e, after)) =>
          s.Push(e);
          OneMoreDone(done, e);
          left := after;
          done := done + [e];
      }
    }
    PrependToNone(done, left, c);
    rest := Some(left);
  }

  lemma PrependNothing<E>(r: Option<(seq<Entry<E>>, seq<uint8>)>)
    ensures Prepend([], r) == r
  {
    if r.Some? {
      assert [] + r.value.0 == r.value.0;
    }
  }

  lemma PrependToNone<E>(done: seq<Entry<E>>, left: seq<uint8>, c: Codec<E>)
    ensures Prepend(done, DecodeEntries(left, 0, c)) == Some((done, left))
  {
    assert done + [] == done;
  }

  /** `load`. A failed load may leave the scheduler partly overwritten, as in the source. */
  method Load<E>(s: Scheduler<E>, c: Codec<E>, bytes: seq<uint8>) returns (rest: Option<seq<uint8>>)
    modifies s
    ensures rest.Some? <==> Decode(bytes, c).Some?
    ensures rest.Some? ==> HeapOrdered(s.heap) && rest.value == Decode(bytes, c).value.1
    ensures rest.Some? ==>
      s.nextSeq == Decode(bytes, c).value.0.next && multiset(s.heap) == multiset(Decode(bytes, c).value.0.pending)
  {
    match ReadU64(bytes)
    case None => return None;
    case Some((next, body)) =>
      s.nextSeq := next;
      match ReadU64(body) {
        case None => return None;
        case Some((n, tail)) =>
          if n > |tail| {
            return None;
          }
          s.Clear();
          rest := LoadEntries(s, c, tail, n);
      }
  }

  /** Loading a saved state restores the logical contents, whatever the target held before. */
  method SaveThenLoad<E(!new)>(from: Scheduler<E>, to: Scheduler<E>, c: Codec<E>)
    requires from.Valid() && from != to && Faithful(c) && Fits(Logical(from.Pending(), from.nextSeq))
    modifies to
    ensures to.Valid() && to.Pending() == from.Pending() && to.nextSeq == from.nextSeq
  {
    ghost var s := Logical(from.Pending(), from.nextSeq);
    var bytes := Save(from, c);
    RoundTrip(s, c, []);
    assert bytes + [] == bytes;
    from.PendingFacts();
    var rest := Load(to, c, bytes);
    to.Settle(s.pending);
  }
}
