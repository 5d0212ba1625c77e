/** The observer of a response stream: it keeps the ends of the body and settles the request exactly once. */
module Observer {
  import opened Common
  import opened UsageScan

  const HEAD_KEEP: nat := 16 * 1024
  const TAIL_KEEP: nat := 64 * 1024

  function FirstPart(s: string, n: nat): string {
    if |s| <= n then s else s[..n]
  }

  function LastPart(s: string, n: nat): string {
    if |s| <= n then s else s[|s| - n..]
  }

  /** What polling the upstream stream yields. */
  datatype Event = Chunk(bytes: string) | Fault | End | NotYet

  /** The bytes of all chunks, in order. */
  function Body(events: seq<Event>): string
    decreases |events|
  {
    if events == [] then []
    else
      var last := events[|events| - 1];
      Body(events[..|events| - 1]) + if last.Chunk? then last.bytes else []
  }

  lemma BodySnoc(events: seq<Event>, e: Event)
    ensures Body(events + [e]) == Body(events) + if e.Chunk? then e.bytes else []
  {
    assert (events + [e])[..|events|] == events;
  }

  class Observer {
    const accounting: bool
    const hadKeySlot: bool
    var head: string
    var tail: string
    var done: bool
    var keySlot: bool                  // `release_key` has not been called
    // the effects of settling
    var keyReleases: nat
    var accountReleases: nat
    var records: nat
    var disconnected: bool             // the recorded error
    var usage: Option<string>
    ghost var body: string

    ghost predicate Valid()
      reads this
    {
      && head == FirstPart(body, HEAD_KEEP)
      && tail == LastPart(body, TAIL_KEEP)
      && keySlot == (hadKeySlot && !done)
      && records == (if done then 1 else 0)
      && keyReleases == (if done && hadKeySlot then 1 else 0)
      && accountReleases == (if done && accounting then 1 else 0)
    }

    constructor (accounting: bool, hadKeySlot: bool)
      ensures Valid() && body == [] && !done
      ensures this.accounting == accounting && this.hadKeySlot == hadKeySlot
    {
      this.accounting, this.hadKeySlot := accounting, hadKeySlot;
      head, tail, done, keySlot := [], [], false, hadKeySlot;
      keyReleases, accountReleases, records, disconnected, usage, body := 0, 0, 0, false, None, [];
    }

    /** Keeps the ends of the body. */
    method Keep(bytes: string)
      requires Valid()
      modifies `head, `tail, `body
      ensures Valid() && body == old(body) + bytes
    {
      if |head| < HEAD_KEEP {
        var room := HEAD_KEEP - |head|;
        var take := if room <= |bytes| then room else |bytes|;
        head := head + bytes[..take];
      }
      tail := tail + bytes;
      if |tail| > TAIL_KEEP {
        tail := tail[|tail| - TAIL_KEEP..];
      }
      body := body + bytes;
    }

    /** One poll of the upstream stream. */
    method PollNext(e: Event)
      requires Valid()
      modifies this
      ensures Valid() && body == old(body) + if e.Chunk? then e.bytes else []
      ensures done == (old(done) || e.End?)
      ensures done && !old(done) ==> !disconnected && usage == UsageObject(tail)
      ensures old(done) || !done ==> usage == old(usage) && disconnected == old(disconnected)
    {
      match e {
        case Chunk(bytes) =>
          Keep(bytes);
        case End =>
          Finish(false);
          assert body + [] == body;
        case _ =>
          assert body + [] == body;
      }
    }

    /** Settles the request; every call after the first does nothing. */
    method Finish(clientLeft: bool)
      requires Valid()
      modifies this
      ensures Valid() && done && head == old(head) && tail == old(tail) && body == old(body)
      ensures old(done) ==> usage == old(usage) && disconnected == old(disconnected)
      ensures !old(done) ==> disconnected == clientLeft && usage == UsageObject(tail)
    {
      if done {
        return;
      }
      done := true;
      if keySlot {
        keySlot := false;
        keyReleases := keyReleases + 1;
      }
      usage := ExtractUsage(tail);
      if accounting {
        accountReleases := accountReleases + 1;
      }
      records := records + 1;
      disconnected := clientLeft;
    }

    /** The response body goes out of scope, finished or not. */
    method Drop()
      requires Valid()
      modifies this
      ensures Valid() && done && body == old(body)
      ensures old(done) ==> usage == old(usage) && disconnected == old(disconnected)
      ensures !old(done) ==> disconnected && usage == UsageObject(tail)
    {
      Finish(!done);
    }
  }

  /** The recorded usage is that of the whole body unless the body's last key lies before the kept tail. */
  lemma TailUsageIsBodyUsage(body: string)
    ensures UsageObject(LastPart(body, TAIL_KEEP)) == UsageObject(body)
            <==> UsageObject(body).None? || LastOccurrence(body).value + TAIL_KEEP >= |body|
  {
    var cut := if |body| <= TAIL_KEEP then 0 else |body| - TAIL_KEEP;
    assert body[cut..] == LastPart(body, TAIL_KEEP);
    TailIsEnough(body, cut);
  }

  /**
   A whole response: whatever the upstream's events, and wherever the client leaves, the request is settled once,
   both slots are given back, and the kept ends depend on the body alone, not on how it was split into chunks.
   */
  method ServeStream(o: Observer, events: seq<Event>)
    requires o.Valid() && o.body == [] && !o.done
    modifies o
    ensures o.records == 1
    ensures o.keyReleases == (if o.hadKeySlot then 1 else 0)
    ensures o.accountReleases == (if o.accounting then 1 else 0)
    ensures o.head == FirstPart(Body(events), HEAD_KEEP) && o.tail == LastPart(Body(events), TAIL_KEEP)
    ensures o.disconnected <==> !exists i :: 0 <= i < |events| && events[i].End?
    ensures (forall i :: 0 <= i < |events| - 1 ==> !events[i].End?) ==>
              o.usage == UsageObject(LastPart(Body(events), TAIL_KEEP))
  {
    for n := 0 to |events|
      invariant o.Valid() && o.body == Body(events[..n])
      invariant o.done == SawEnd(events[..n]) && (o.done ==> !o.disconnected)
      invariant n > 0 && o.done && !SawEnd(events[..n - 1]) ==> o.usage == UsageObject(o.tail)
    {
      OneMoreEvent(events, n);
      o.PollNext(events[n]);
    }
    assert events[..|events|] == events;
    EndsAreSeen(events);
    if events != [] {
      EndsAreSeen(events[..|events| - 1]);
    }
    o.Drop();
  }

  function SawEnd(events: seq<Event>): bool
    decreases |events|
  {
    events != [] && (SawEnd(events[..|events| - 1]) || events[|events| - 1].End?)
  }

  lemma {:induction false} EndsAreSeen(events: seq<Event>)
    ensures SawEnd(events) <==> exists i :: 0 <= i < |events| && events[i].End?
    decreases |events|
  {
    if events != [] {
      var n := |events| - 1;
      EndsAreSeen(events[..n]);
      if i :| 0 <= i < |events| && events[i].End? {
        assert i < n ==> events[..n][i].End?;
      }
    }
  }

  lemma OneMoreEvent(events: seq<Event>, n: nat)
    requires n < |events|
    ensures Body(events[..n + 1]) == Body(events[..n]) + if events[n].Chunk? then events[n].bytes else []
    ensures SawEnd(events[..n + 1]) == (SawEnd(events[..n]) || events[n].End?)
  {
    assert events[..n + 1][..n] == events[..n];
  }
}
