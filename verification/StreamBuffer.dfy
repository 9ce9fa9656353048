/**
 The replayable event buffer of a streaming run: bounded rings that share one sequence counter,
 and a subscriber that scans, drains and sleeps while events keep arriving.
 */
module StreamBuffer {
  import opened Collections

  datatype Kind = Plain | Terminal

  datatype Event = Event(seqNo: nat, kind: Kind, payload: string)

  ghost predicate Ascending(es: seq<Event>) {
    forall i, j :: 0 <= i < j < |es| ==> es[i].seqNo < es[j].seqNo
  }

  /** The rings and the counter of one execution. */
  datatype Channel = Channel(events: seq<Event>, audio: seq<Event>, counter: nat)

  const NEW_CHANNEL := Channel([], [], 0)

  function Stored(ch: Channel, kind: Kind, payload: string, maxEvents: nat): Channel {
    Channel(LastN(ch.events + [Event(ch.counter + 1, kind, payload)], maxEvents), ch.audio, ch.counter + 1)
  }

  function StoredAudio(ch: Channel, payload: string, maxChunks: nat): Channel {
    Channel(ch.events, LastN(ch.audio + [Event(ch.counter + 1, Plain, payload)], maxChunks), ch.counter + 1)
  }

  function Above(es: seq<Event>, cursor: nat): (r: seq<Event>)
    ensures forall e :: e in r <==> e in es && e.seqNo > cursor
  {
    if es == [] then []
    else
      var init := Above(es[..|es| - 1], cursor);
      assert es == es[..|es| - 1] + [es[|es| - 1]];
      if es[|es| - 1].seqNo > cursor then init + [es[|es| - 1]] else init
  }

  lemma {:induction false} AboveAscends(es: seq<Event>, cursor: nat)
    requires Ascending(es)
    ensures Ascending(Above(es, cursor))
  {
    if es != [] {
      AboveAscends(es[..|es| - 1], cursor);
      var init := Above(es[..|es| - 1], cursor);
      forall i | 0 <= i < |init| ensures init[i].seqNo < es[|es| - 1].seqNo {
        assert init[i] in es[..|es| - 1];
      }
    }
  }

  /** Two ascending lists in one. */
  function Merged(a: seq<Event>, b: seq<Event>): (r: seq<Event>)
    ensures forall e :: e in r <==> e in a || e in b
    decreases |a| + |b|
  {
    if a == [] then b
    else if b == [] then a
    else if a[0].seqNo < b[0].seqNo then
      assert a == [a[0]] + a[1..];
      [a[0]] + Merged(a[1..], b)
    else
      assert b == [b[0]] + b[1..];
      [b[0]] + Merged(a, b[1..])
  }

  ghost predicate Disjoint(a: seq<Event>, b: seq<Event>) {
    forall i, j :: 0 <= i < |a| && 0 <= j < |b| ==> a[i].seqNo != b[j].seqNo
  }

  lemma {:induction false} MergedAscends(a: seq<Event>, b: seq<Event>)
    requires Ascending(a) && Ascending(b) && Disjoint(a, b)
    ensures Ascending(Merged(a, b))
    decreases |a| + |b|
  {
    if a != [] && b != [] {
      if a[0].seqNo < b[0].seqNo {
        MergedAscends(a[1..], b);
        HeadFirst(a[0], a[1..], b);
      } else {
        MergedAscends(a, b[1..]);
        HeadFirst(b[0], a, b[1..]);
      }
    }
  }

  lemma HeadFirst(e: Event, a: seq<Event>, b: seq<Event>)
    requires forall x :: x in a || x in b ==> e.seqNo < x.seqNo
    requires Ascending(Merged(a, b))
    ensures Ascending([e] + Merged(a, b))
  {
    hide Merged;
    var rest := Merged(a, b);
    assert forall i :: 0 <= i < |rest| ==> rest[i] in rest;
  }

  /** What a scan finds: everything retained beyond the cursor, in sequence order. */
  function Pending(ch: Channel, cursor: nat): (r: seq<Event>)
    ensures forall e :: e in r <==> (e in ch.events || e in ch.audio) && e.seqNo > cursor
  {
    Merged(Above(ch.events, cursor), Above(ch.audio, cursor))
  }

  lemma PendingAscends(ch: Channel, cursor: nat)
    requires Ascending(ch.events) && Ascending(ch.audio) && Disjoint(ch.events, ch.audio)
    ensures Ascending(Pending(ch, cursor))
  {
    hide Above, Merged;
    var a, b := Above(ch.events, cursor), Above(ch.audio, cursor);
    forall i, j | 0 <= i < |a| && 0 <= j < |b| ensures a[i].seqNo != b[j].seqNo {
      assert a[i] in a && b[j] in b;
    }
    AboveAscends(ch.events, cursor);
    AboveAscends(ch.audio, cursor);
    MergedAscends(a, b);
  }

  ghost predicate Below(es: seq<Event>, n: nat) {
    forall i :: 0 <= i < |es| ==> es[i].seqNo <= n
  }

  /** Both rings in order of their numbers, which no two retained events share and the counter has reached. */
  ghost predicate InOrder(ch: Channel) {
    && Ascending(ch.events) && Ascending(ch.audio) && Disjoint(ch.events, ch.audio)
    && Below(ch.events, ch.counter) && Below(ch.audio, ch.counter)
  }

  lemma StoredInOrder(ch: Channel, kind: Kind, payload: string, maxEvents: nat)
    requires InOrder(ch)
    ensures InOrder(Stored(ch, kind, payload, maxEvents))
  {
  }

  lemma StoredAudioInOrder(ch: Channel, payload: string, maxChunks: nat)
    requires InOrder(ch)
    ensures InOrder(StoredAudio(ch, payload, maxChunks))
  {
  }

  lemma NewIsInOrder()
    ensures InOrder(NEW_CHANNEL)
  {
  }

  /** Ascending lists with the same events are one list. */
  lemma {:induction false} AscendingIsUnique(a: seq<Event>, b: seq<Event>)
    requires Ascending(a) && Ascending(b) && forall e :: e in a <==> e in b
    ensures a == b
  {
    assert a != [] ==> a[0] in b;
    assert b != [] ==> b[0] in a;
    if a != [] {
      assert a[0] == b[0];
      RestOfAscending(a);
      RestOfAscending(b);
      AscendingIsUnique(a[1..], b[1..]);
      assert a == [a[0]] + a[1..] && b == [b[0]] + b[1..];
    }
  }

  lemma RestOfAscending(a: seq<Event>)
    requires Ascending(a) && a != []
    ensures forall e :: e in a[1..] <==> e in a && e != a[0]
  {
    forall i | 1 <= i < |a| ensures a[i] in a[1..] {
      assert a[1..][i - 1] == a[i];
    }
  }

  /** No two events share a number. */
  ghost predicate Apart(es: seq<Event>) {
    forall i, j :: 0 <= i < j < |es| ==> es[i].seqNo != es[j].seqNo
  }

  lemma RetainedApart(ch: Channel)
    requires InOrder(ch)
    ensures Apart(ch.events + ch.audio)
  {
  }

  lemma {:induction false} AboveApart(es: seq<Event>, cursor: nat)
    requires Apart(es)
    ensures Apart(Above(es, cursor))
  {
    if es != [] {
      var init, last := es[..|es| - 1], es[|es| - 1];
      AboveApart(init, cursor);
      var r := Above(init, cursor);
      forall i | 0 <= i < |r| ensures r[i].seqNo != last.seqNo {
        assert r[i] in init;
      }
      assert Above(es, cursor) == if last.seqNo > cursor then r + [last] else r;
    }
  }

  function InsertAt(es: seq<Event>, k: nat, e: Event): seq<Event>
    requires k <= |es|
  {
    es[..k] + [e] + es[k..]
  }

  lemma InsertAscends(es: seq<Event>, k: nat, e: Event)
    requires Ascending(es) && k <= |es| && (k > 0 ==> es[k - 1].seqNo < e.seqNo) && (k < |es| ==> e.seqNo < es[k].seqNo)
    ensures Ascending(InsertAt(es, k, e))
  {
    var r := InsertAt(es, k, e);
    forall i | 0 <= i < |r|
      ensures r[i] == if i < k then es[i] else if i == k then e else es[i - 1]
      ensures if i < k then r[i].seqNo < e.seqNo else if i == k then r[i] == e else e.seqNo < r[i].seqNo
    {
    }
  }

  lemma InsertAdds(es: seq<Event>, k: nat, e: Event)
    requires k <= |es|
    ensures forall x :: x in InsertAt(es, k, e) <==> x in es || x == e
  {
    assert es == es[..k] + es[k..];
  }

  /** Sorts events by their numbers, all different. */
  method SortBySeq(es: seq<Event>) returns (sorted: seq<Event>)
    requires Apart(es)
    ensures Ascending(sorted) && forall e :: e in sorted <==> e in es
  {
    hide Ascending, InsertAt;
    sorted := [];
    assert Ascending(sorted) by { NothingAscends(); }
    for i := 0 to |es|
      invariant Ascending(sorted)
      invariant forall e :: e in sorted <==> e in es[..i]
    {
      var k := |sorted|;
      while k > 0 && sorted[k - 1].seqNo > es[i].seqNo
        invariant 0 <= k <= |sorted|
        invariant k < |sorted| ==> sorted[k].seqNo > es[i].seqNo
      {
        k := k - 1;
      }
      if k > 0 {
        assert sorted[k - 1] in es[..i];
      }
      InsertAscends(sorted, k, es[i]);
      InsertAdds(sorted, k, es[i]);
      assert es[..i + 1] == es[..i] + [es[i]];
      sorted := InsertAt(sorted, k, es[i]);
    }
    assert es[..|es|] == es;
  }

  lemma NothingAscends()
    ensures Ascending([])
  {
  }

  /** The channel of an execution in the three tables; one not opened is as good as new. */
  ghost function ChannelIn(events: map<string, seq<Event>>, audio: map<string, seq<Event>>, counters: map<string, nat>,
                           id: string): Channel
  {
    if id in events && id in audio && id in counters then Channel(events[id], audio[id], counters[id]) else NEW_CHANNEL
  }

  ghost predicate Coherent(events: map<string, seq<Event>>, audio: map<string, seq<Event>>, counters: map<string, nat>)
  {
    events.Keys == audio.Keys == counters.Keys && forall id :: InOrder(ChannelIn(events, audio, counters, id))
  }

  lemma ChannelUpdated(events: map<string, seq<Event>>, audio: map<string, seq<Event>>, counters: map<string, nat>,
                       id: string, ch: Channel)
    requires Coherent(events, audio, counters) && InOrder(ch)
    ensures var (es, chunks, cs) := (events[id := ch.events], audio[id := ch.audio], counters[id := ch.counter]);
            && Coherent(es, chunks, cs) && ChannelIn(es, chunks, cs, id) == ch
            && forall other :: other != id
                               ==> ChannelIn(es, chunks, cs, other) == ChannelIn(events, audio, counters, other)
  {
    hide InOrder;
    var (es, chunks, cs) := (events[id := ch.events], audio[id := ch.audio], counters[id := ch.counter]);
    assert es.Keys == events.Keys + {id} && chunks.Keys == audio.Keys + {id} && cs.Keys == counters.Keys + {id};
    forall other
      ensures ChannelIn(es, chunks, cs, other) == if other == id then ch else ChannelIn(events, audio, counters, other)
    {
    }
  }

  class InMemoryStreamBuffer {
    const maxEvents: nat
    const audioMaxChunks: nat
    var events: map<string, seq<Event>>
    var audio: map<string, seq<Event>>
    var counters: map<string, nat>

    ghost predicate Valid()
      reads this
    {
      Coherent(events, audio, counters)
    }

    constructor (maxEvents: nat := 2000, audioMaxChunks: nat := 50)
      ensures Valid() && this.maxEvents == maxEvents && this.audioMaxChunks == audioMaxChunks && events == map[]
    {
      this.maxEvents, this.audioMaxChunks := maxEvents, audioMaxChunks;
      events, audio, counters := map[], map[], map[];
    }

    ghost function At(id: string): Channel
      reads this
    {
      ChannelIn(events, audio, counters, id)
    }

    method Open(id: string)
      requires Valid()
      modifies this
      ensures Valid() && events.Keys == old(events.Keys) + {id}
      ensures forall other :: At(other) == old(At(other))
    {
      hide InOrder, Coherent;
      IsCoherent(id);
      if id !in events {
        NewIsInOrder();
        ChannelUpdated(events, audio, counters, id, NEW_CHANNEL);
        events, audio, counters := events[id := []], audio[id := []], counters[id := 0];
      }
    }

    lemma IsCoherent(id: string)
      requires Valid()
      ensures events.Keys == audio.Keys == counters.Keys && InOrder(At(id))
    {
    }

    method Append(id: string, kind: Kind, payload: string) returns (seqNo: nat)
      requires Valid()
      modifies this
      ensures Valid() && id in events
      ensures At(id) == Stored(old(At(id)), kind, payload, maxEvents)
      ensures seqNo == At(id).counter == old(At(id)).counter + 1 && At(id).audio == old(At(id)).audio
      ensures LastOf(old(At(id)).events + [Event(seqNo, kind, payload)], maxEvents, At(id).events)
      ensures forall other :: other != id ==> At(other) == old(At(other))
    {
      hide InOrder, LastN, LastOf, Coherent;
      if id !in events {
        Open(id);
      }
      IsCoherent(id);
      StoredInOrder(At(id), kind, payload, maxEvents);
      ChannelUpdated(events, audio, counters, id, Stored(At(id), kind, payload, maxEvents));
      assert audio[id := audio[id]] == audio;
      counters := counters[id := counters[id] + 1];
      seqNo := counters[id];
      LastNIsEnd(events[id] + [Event(seqNo, kind, payload)], maxEvents);
      events := events[id := LastN(events[id] + [Event(seqNo, kind, payload)], maxEvents)];
    }

    method AppendTransient(id: string, payload: string) returns (seqNo: nat)
      requires Valid()
      modifies this
      ensures Valid() && id in events
      ensures At(id) == StoredAudio(old(At(id)), payload, audioMaxChunks)
      ensures seqNo == At(id).counter == old(At(id)).counter + 1 && At(id).events == old(At(id)).events
      ensures LastOf(old(At(id)).audio + [Event(seqNo, Plain, payload)], audioMaxChunks, At(id).audio)
      ensures forall other :: other != id ==> At(other) == old(At(other))
    {
      hide InOrder, LastN, LastOf, Coherent;
      if id !in events {
        Open(id);
      }
      IsCoherent(id);
      StoredAudioInOrder(At(id), payload, audioMaxChunks);
      ChannelUpdated(events, audio, counters, id, StoredAudio(At(id), payload, audioMaxChunks));
      assert events[id := events[id]] == events;
      counters := counters[id := counters[id] + 1];
      seqNo := counters[id];
      LastNIsEnd(audio[id] + [Event(seqNo, Plain, payload)], audioMaxChunks);
      audio := audio[id := LastN(audio[id] + [Event(seqNo, Plain, payload)], audioMaxChunks)];
    }

    /** Forgets the execution: its numbering starts again. */
    method Drop(id: string)
      requires Valid()
      modifies this
      ensures Valid() && id !in events && At(id) == NEW_CHANNEL
      ensures forall other :: other != id ==> At(other) == old(At(other))
    {
      hide InOrder;
      NewIsInOrder();
      ghost var (es, chunks, cs) := (events, audio, counters);
      events, audio, counters := events - {id}, audio - {id}, counters - {id};
      assert events.Keys == es.Keys - {id} && audio.Keys == chunks.Keys - {id} && counters.Keys == cs.Keys - {id};
      forall other
        ensures At(other) == if other == id then NEW_CHANNEL else ChannelIn(es, chunks, cs, other)
        ensures InOrder(ChannelIn(events, audio, counters, other))
      {
        assert InOrder(ChannelIn(es, chunks, cs, other));
      }
    }

    /** One scan of a subscriber: the retained events beyond the cursor, each once, by number. */
    method Scan(id: string, cursor: nat) returns (pending: seq<Event>)
      requires Valid() && id in events
      ensures Ascending(pending)
      ensures forall e :: e in pending <==> (e in events[id] || e in audio[id]) && e.seqNo > cursor
      ensures pending == Pending(At(id), cursor)
    {
      var found := Above(events[id] + audio[id], cursor);
      RetainedApart(At(id));
      AboveApart(events[id] + audio[id], cursor);
      pending := SortBySeq(found);
      PendingAscends(At(id), cursor);
      AscendingIsUnique(pending, Pending(At(id), cursor));
    }
  }

  /** Where a subscriber is. The recheck under the lock and falling asleep are one step: nothing runs between them. */
  datatype Phase = Absent | Scanning | Draining(batch: seq<Event>) | Locking | Sleeping | Stopped

  /**
   One execution's buffer with a subscriber, all control and all audio events appended so far and the
   counter at each scan. `owed` counts appends whose notify has not happened yet.
   */
  datatype World = World(ch: Channel, owed: nat, phase: Phase, after: nat, cursor: nat, output: seq<Event>,
                         history: seq<Event>, heard: seq<Event>, scans: seq<nat>)

  datatype Action =
    | Append(kind: Kind, payload: string)
    | AppendAudio(payload: string)
    | Notify
    | Subscribe(afterSeq: nat)
    | Advance

  datatype Limits = Limits(maxEvents: nat, maxChunks: nat)

  const IDLE := World(NEW_CHANNEL, 0, Absent, 0, 0, [], [], [], [])

  /** The subscriber's next move. */
  function Advanced(w: World): (r: World)
    ensures r.ch == w.ch && r.history == w.history && r.heard == w.heard && r.owed == w.owed && r.after == w.after
  {
    match w.phase
    case Scanning => w.(phase := Draining(Pending(w.ch, w.cursor)), scans := w.scans + [w.ch.counter])
    case Draining(batch) =>
      if batch == [] then w.(phase := Locking)
      else w.(cursor := batch[0].seqNo, output := w.output + [batch[0]],
              phase := if batch[0].kind == Terminal then Stopped else Draining(batch[1..]))
    case Locking => w.(phase := if Pending(w.ch, w.cursor) != [] then Scanning else Sleeping)
    case _ => w
  }

  /** Any interleaving of appends, their notifies and the subscriber's moves. */
  function Next(l: Limits, w: World, a: Action): World {
    match a
    case Append(kind, payload) =>
      w.(ch := Stored(w.ch, kind, payload, l.maxEvents), owed := w.owed + 1,
         history := w.history + [Event(w.ch.counter + 1, kind, payload)])
    case AppendAudio(payload) =>
      w.(ch := StoredAudio(w.ch, payload, l.maxChunks), owed := w.owed + 1,
         heard := w.heard + [Event(w.ch.counter + 1, Plain, payload)])
    case Notify =>
      if w.owed == 0 then w else w.(owed := w.owed - 1, phase := if w.phase == Sleeping then Scanning else w.phase)
    case Subscribe(afterSeq) =>
      if w.phase == Absent then w.(phase := Scanning, after := afterSeq, cursor := afterSeq) else w
    case Advance => Advanced(w)
  }

  function Happen(l: Limits, actions: seq<Action>): World {
    if actions == [] then IDLE else Next(l, Happen(l, actions[..|actions| - 1]), actions[|actions| - 1])
  }

  /** A ring against what was appended to it. */
  ghost predicate RingOk(sent: seq<Event>, ring: seq<Event>, cap: nat, counter: nat) {
    Ascending(sent) && Below(sent, counter) && ring == LastN(sent, cap)
  }

  ghost predicate RingsOk(l: Limits, w: World) {
    && RingOk(w.history, w.ch.events, l.maxEvents, w.ch.counter)
    && RingOk(w.heard, w.ch.audio, l.maxChunks, w.ch.counter)
    && Disjoint(w.history, w.heard)
  }

  ghost predicate ScansOk(w: World) {
    && (forall i, j :: 0 <= i < j < |w.scans| ==> w.scans[i] <= w.scans[j])
    && (forall i :: 0 <= i < |w.scans| ==> w.scans[i] <= w.ch.counter)
  }

  /** The counter at the last scan. */
  function LastScan(w: World): nat {
    if w.scans == [] then 0 else w.scans[|w.scans| - 1]
  }

  function Batch(w: World): seq<Event> {
    if w.phase.Draining? then w.phase.batch else []
  }

  ghost predicate OutputOk(w: World) {
    && Ascending(w.output)
    && (forall i :: 0 <= i < |w.output| ==> w.after < w.output[i].seqNo <= w.cursor)
    && (if w.output == [] then w.cursor == w.after else w.cursor == w.output[|w.output| - 1].seqNo <= LastScan(w))
    && Ascending(Batch(w)) && (forall i :: 0 <= i < |Batch(w)| ==> w.cursor < Batch(w)[i].seqNo <= LastScan(w))
  }

  /** Nothing is put out that was not appended. */
  ghost predicate Genuine(w: World) {
    forall e :: e in w.output || e in Batch(w) ==> e in w.history || e in w.heard
  }

  /** `cap` later events of the same ring had arrived by the scan that would have found this one. */
  ghost predicate EvictedBeforeScan(sent: seq<Event>, cap: nat, scans: seq<nat>, i: nat) {
    && i + cap < |sent|
    && exists k :: 0 <= k < |scans| && FirstScanAfter(scans, sent[i].seqNo, k) && sent[i + cap].seqNo <= scans[k]
  }

  ghost predicate FirstScanAfter(scans: seq<nat>, seqNo: nat, k: nat) {
    k < |scans| && seqNo <= scans[k] && forall m :: 0 <= m < k ==> scans[m] < seqNo
  }

  /** Each event of a ring that a scan has passed was put out, is about to be, or had been evicted. */
  ghost predicate CoveredIn(w: World, sent: seq<Event>, cap: nat) {
    !w.phase.Stopped? ==>
      forall i :: 0 <= i < |sent| && w.after < sent[i].seqNo <= LastScan(w) ==>
        sent[i] in w.output || sent[i] in Batch(w) || EvictedBeforeScan(sent, cap, w.scans, i)
  }

  /** Once stopped, the same holds up to the terminal event. */
  ghost predicate CoveredToEndIn(w: World, sent: seq<Event>, cap: nat) {
    w.phase.Stopped? ==>
      && w.output != [] && w.output[|w.output| - 1].kind == Terminal
      && forall i :: 0 <= i < |sent| && w.after < sent[i].seqNo <= w.cursor ==>
           sent[i] in w.output || EvictedBeforeScan(sent, cap, w.scans, i)
  }

  ghost predicate Covered(l: Limits, w: World) {
    CoveredIn(w, w.history, l.maxEvents) && CoveredIn(w, w.heard, l.maxChunks)
  }

  ghost predicate CoveredToEnd(l: Limits, w: World) {
    CoveredToEndIn(w, w.history, l.maxEvents) && CoveredToEndIn(w, w.heard, l.maxChunks)
  }

  ghost predicate WokenOk(w: World) {
    w.phase.Sleeping? && Pending(w.ch, w.cursor) != [] ==> w.owed > 0
  }

  ghost predicate AbsentOk(w: World) {
    w.phase.Absent? ==> w.scans == [] && w.output == []
  }

  /** A terminal event is the last one put out. */
  ghost predicate NothingTerminalPassed(w: World) {
    forall i :: 0 <= i < |w.output| && w.output[i].kind == Terminal ==> i == |w.output| - 1 && w.phase.Stopped?
  }

  ghost predicate Inv(l: Limits, w: World) {
    RingsOk(l, w) && ScansOk(w) && OutputOk(w) && Genuine(w) && Covered(l, w) && CoveredToEnd(l, w) && WokenOk(w)
        && AbsentOk(w) && NothingTerminalPassed(w)
  }

  lemma LastNOfMore<T>(xs: seq<T>, x: T, n: nat)
    ensures LastN(LastN(xs, n) + [x], n) == LastN(xs + [x], n)
  {
  }

  lemma RingGrows(sent: seq<Event>, ring: seq<Event>, cap: nat, counter: nat, e: Event)
    requires RingOk(sent, ring, cap, counter) && e.seqNo == counter + 1
    ensures RingOk(sent + [e], LastN(ring + [e], cap), cap, counter + 1)
  {
    LastNOfMore(sent, e, cap);
  }

  lemma RingStays(sent: seq<Event>, ring: seq<Event>, cap: nat, counter: nat)
    requires RingOk(sent, ring, cap, counter)
    ensures RingOk(sent, ring, cap, counter + 1)
  {
  }

  lemma NewIsDisjoint(l: Limits, w: World, e: Event)
    requires RingsOk(l, w) && e.seqNo == w.ch.counter + 1
    ensures Disjoint(w.history + [e], w.heard) && Disjoint(w.history, w.heard + [e])
  {
    hide LastN;
  }

  lemma AppendGrows(l: Limits, w: World, kind: Kind, payload: string)
    requires RingsOk(l, w)
    ensures RingsOk(l, Next(l, w, Append(kind, payload)))
  {
    hide Pending, Advanced;
    var e := Event(w.ch.counter + 1, kind, payload);
    NewIsDisjoint(l, w, e);
    hide LastN, Ascending, Below, Disjoint, RingOk;
    RingGrows(w.history, w.ch.events, l.maxEvents, w.ch.counter, e);
    RingStays(w.heard, w.ch.audio, l.maxChunks, w.ch.counter);
  }

  lemma AudioGrows(l: Limits, w: World, payload: string)
    requires RingsOk(l, w)
    ensures RingsOk(l, Next(l, w, AppendAudio(payload)))
  {
    var e := Event(w.ch.counter + 1, Plain, payload);
    NewIsDisjoint(l, w, e);
    hide LastN, Ascending, Below, Disjoint, RingOk;
    RingGrows(w.heard, w.ch.audio, l.maxChunks, w.ch.counter, e);
    RingStays(w.history, w.ch.events, l.maxEvents, w.ch.counter);
  }

  /** The ring is the end of what was appended to it. */
  lemma RingIsEnd(sent: seq<Event>, ring: seq<Event>, cap: nat, counter: nat)
    requires RingOk(sent, ring, cap, counter)
    ensures LastOf(sent, cap, ring) && Ascending(ring) && Below(ring, counter)
  {
    LastNIsEnd(sent, cap);
    hide LastN;
    var gone := |sent| - |ring|;
    forall i, j | 0 <= i < j < |ring| ensures ring[i].seqNo < ring[j].seqNo {
      assert sent[gone + i].seqNo < sent[gone + j].seqNo;
    }
  }

  /** An event retained or evicted: what a scan now would make of it. */
  lemma RetainedOrEvicted(sent: seq<Event>, ring: seq<Event>, cap: nat, counter: nat, i: nat)
    requires RingOk(sent, ring, cap, counter) && i < |sent|
    ensures sent[i] in ring || (i + cap < |sent| && sent[i + cap].seqNo <= counter)
  {
    if i + cap >= |sent| {
      assert ring[i - (|sent| - |ring|)] == sent[i];
    }
  }

  /** Later scans do not change which scan came first. */
  lemma EvictedStays(sent: seq<Event>, cap: nat, scans: seq<nat>, i: nat, s: nat)
    requires i < |sent| && EvictedBeforeScan(sent, cap, scans, i)
    ensures EvictedBeforeScan(sent, cap, scans + [s], i)
  {
    var k :| 0 <= k < |scans| && FirstScanAfter(scans, sent[i].seqNo, k) && sent[i + cap].seqNo <= scans[k];
    assert FirstScanAfter(scans + [s], sent[i].seqNo, k);
  }

  /** Eviction before a scan is a fact about the past. */
  lemma EvictedByPast(sent: seq<Event>, cap: nat, scans: seq<nat>, i: nat, e: Event)
    requires i < |sent| && EvictedBeforeScan(sent, cap, scans, i)
    ensures EvictedBeforeScan(sent + [e], cap, scans, i)
  {
    var k :| 0 <= k < |scans| && FirstScanAfter(scans, sent[i].seqNo, k) && sent[i + cap].seqNo <= scans[k];
    assert (sent + [e])[i + cap] == sent[i + cap];
    assert FirstScanAfter(scans, (sent + [e])[i].seqNo, k);
  }

  lemma EvictedNow(w: World, sent: seq<Event>, cap: nat, i: nat)
    requires ScansOk(w) && i < |sent| && LastScan(w) < sent[i].seqNo <= w.ch.counter
    requires i + cap < |sent| && sent[i + cap].seqNo <= w.ch.counter
    ensures EvictedBeforeScan(sent, cap, w.scans + [w.ch.counter], i)
  {
    assert FirstScanAfter(w.scans + [w.ch.counter], sent[i].seqNo, |w.scans|);
  }

  lemma PendingOk(l: Limits, w: World)
    requires RingsOk(l, w)
    ensures Ascending(Pending(w.ch, w.cursor))
    ensures forall e :: e in Pending(w.ch, w.cursor)
                        ==> w.cursor < e.seqNo <= w.ch.counter && (e in w.history || e in w.heard)
  {
    hide Pending;
    RingIsEnd(w.history, w.ch.events, l.maxEvents, w.ch.counter);
    RingIsEnd(w.heard, w.ch.audio, l.maxChunks, w.ch.counter);
    hide RingOk, LastN;
    PendingAscends(w.ch, w.cursor);
  }

  lemma ScanCoversRing(w: World, sent: seq<Event>, ring: seq<Event>, cap: nat)
    requires w.phase.Scanning? && ScansOk(w) && CoveredIn(w, sent, cap)
    requires RingOk(sent, ring, cap, w.ch.counter) && (ring == w.ch.events || ring == w.ch.audio)
    requires LastScan(w) >= w.cursor || w.cursor == w.after
    ensures CoveredIn(Advanced(w), sent, cap)
  {
    hide Pending, EvictedBeforeScan, RingOk;
    var w' := Advanced(w);
    forall i | 0 <= i < |sent| && w.after < sent[i].seqNo <= LastScan(w')
      ensures sent[i] in w'.output || sent[i] in Batch(w') || EvictedBeforeScan(sent, cap, w'.scans, i)
    {
      if sent[i].seqNo <= LastScan(w) {
        if sent[i] !in w.output {
          EvictedStays(sent, cap, w.scans, i, w.ch.counter);
        }
      } else {
        RetainedOrEvicted(sent, ring, cap, w.ch.counter, i);
        if sent[i] !in ring {
          EvictedNow(w, sent, cap, i);
        }
      }
    }
  }

  lemma ScanCovers(l: Limits, w: World)
    requires Inv(l, w) && w.phase.Scanning?
    ensures Inv(l, Advanced(w))
  {
    hide Pending, EvictedBeforeScan, LastN, RingOk, CoveredIn;
    ScanCoversRing(w, w.history, w.ch.events, l.maxEvents);
    ScanCoversRing(w, w.heard, w.ch.audio, l.maxChunks);
    PendingOk(l, w);
  }

  lemma SameRings(l: Limits, w: World, w': World)
    requires RingsOk(l, w) && w'.ch == w.ch && w'.history == w.history && w'.heard == w.heard
    ensures RingsOk(l, w')
  {
  }

  lemma DrainCoversRing(w: World, sent: seq<Event>, cap: nat)
    requires w.phase.Draining? && OutputOk(w) && CoveredIn(w, sent, cap)
    ensures CoveredIn(Advanced(w), sent, cap) && CoveredToEndIn(Advanced(w), sent, cap)
  {
    hide EvictedBeforeScan;
    BatchTail(w);
  }

  lemma DrainCovers(l: Limits, w: World)
    requires Inv(l, w) && w.phase.Draining?
    ensures Inv(l, Advanced(w))
  {
    hide Pending, RingsOk, OutputOk, NothingTerminalPassed, CoveredIn, CoveredToEndIn, Genuine;
    SameRings(l, w, Advanced(w));
    DrainCoversRing(w, w.history, l.maxEvents);
    DrainCoversRing(w, w.heard, l.maxChunks);
    DrainOutput(w);
    DrainGenuine(w);
  }

  lemma DrainGenuine(w: World)
    requires w.phase.Draining? && Genuine(w)
    ensures Genuine(Advanced(w))
  {
  }

  lemma DrainOutput(w: World)
    requires w.phase.Draining? && OutputOk(w) && NothingTerminalPassed(w)
    ensures OutputOk(Advanced(w)) && NothingTerminalPassed(Advanced(w))
  {
    hide NothingTerminalPassed;
    DrainTerminal(w);
  }

  lemma DrainTerminal(w: World)
    requires w.phase.Draining? && NothingTerminalPassed(w)
    ensures NothingTerminalPassed(Advanced(w))
  {
  }

  /** The event put out is either the one in question or not. */
  lemma BatchTail(w: World)
    requires w.phase.Draining? && OutputOk(w)
    ensures var w' := Advanced(w);
            && (forall e :: e in w.output ==> e in w'.output)
            && (forall e :: e in w.phase.batch
                            ==> e in w'.output || (e in Batch(w') && e.seqNo > w'.cursor)
                                || (w'.phase.Stopped? && e.seqNo > w'.cursor))
            && (w'.phase.Stopped? ==> w'.output != [] && w'.output[|w'.output| - 1].kind == Terminal)
            && (w'.phase.Stopped? ==> w'.cursor <= LastScan(w))
  {
    var batch, w' := w.phase.batch, Advanced(w);
    if batch != [] {
      assert batch == [batch[0]] + batch[1..];
      assert w'.output[|w.output|] == batch[0];
    }
  }

  lemma LockCovers(l: Limits, w: World)
    requires Inv(l, w) && w.phase.Locking?
    ensures Inv(l, Advanced(w))
  {
    hide Pending, EvictedBeforeScan, LastN, RingsOk;
    SameRings(l, w, Advanced(w));
  }

  /** An append beyond the last scan leaves everything passed as it was. */
  lemma AppendCoversRing(w: World, w': World, sent: seq<Event>, sent': seq<Event>, cap: nat, e: Event)
    requires CoveredIn(w, sent, cap) && CoveredToEndIn(w, sent, cap)
    requires sent' == sent || (sent' == sent + [e] && e.seqNo > LastScan(w)
                               && (w.phase.Stopped? ==> e.seqNo > w.cursor))
    requires w'.phase == w.phase && w'.after == w.after && w'.cursor == w.cursor && w'.output == w.output
    requires w'.scans == w.scans
    ensures CoveredIn(w', sent', cap) && CoveredToEndIn(w', sent', cap)
  {
    hide EvictedBeforeScan;
    forall i | 0 <= i < |sent|
      ensures sent'[i] == sent[i]
      ensures EvictedBeforeScan(sent, cap, w.scans, i) ==> EvictedBeforeScan(sent', cap, w.scans, i)
    {
      if EvictedBeforeScan(sent, cap, w.scans, i) && sent' != sent {
        EvictedByPast(sent, cap, w.scans, i, e);
      }
    }
  }

  lemma AppendCovers(l: Limits, w: World, kind: Kind, payload: string)
    requires Inv(l, w)
    ensures Inv(l, Next(l, w, Append(kind, payload)))
  {
    hide Pending, Stored, RingsOk, CoveredIn, CoveredToEndIn;
    var w', e := Next(l, w, Append(kind, payload)), Event(w.ch.counter + 1, kind, payload);
    AppendGrows(l, w, kind, payload);
    StoredCounts(w.ch, kind, payload, l);
    NewIsUnscanned(l, w);
    AppendCoversRing(w, w', w.history, w'.history, l.maxEvents, e);
    AppendCoversRing(w, w', w.heard, w'.heard, l.maxChunks, e);
  }

  lemma NewIsUnscanned(l: Limits, w: World)
    requires ScansOk(w) && OutputOk(w) && CoveredToEnd(l, w)
    ensures LastScan(w) <= w.ch.counter && (w.phase.Stopped? ==> w.cursor <= w.ch.counter)
  {
  }

  lemma AudioCovers(l: Limits, w: World, payload: string)
    requires Inv(l, w)
    ensures Inv(l, Next(l, w, AppendAudio(payload)))
  {
    hide Pending, StoredAudio, RingsOk, CoveredIn, CoveredToEndIn;
    var w', e := Next(l, w, AppendAudio(payload)), Event(w.ch.counter + 1, Plain, payload);
    AudioGrows(l, w, payload);
    StoredCounts(w.ch, Plain, payload, l);
    NewIsUnscanned(l, w);
    AppendCoversRing(w, w', w.history, w'.history, l.maxEvents, e);
    AppendCoversRing(w, w', w.heard, w'.heard, l.maxChunks, e);
  }

  lemma StoredCounts(ch: Channel, kind: Kind, payload: string, l: Limits)
    ensures Stored(ch, kind, payload, l.maxEvents).counter == ch.counter + 1
            == StoredAudio(ch, payload, l.maxChunks).counter
  {
  }

  lemma NextKeeps(l: Limits, w: World, a: Action)
    requires Inv(l, w)
    ensures Inv(l, Next(l, w, a))
  {
    match a
    case Append(kind, payload) => AppendCovers(l, w, kind, payload);
    case AppendAudio(payload) => AudioCovers(l, w, payload);
    case Notify => NotifyCovers(l, w);
    case Subscribe(afterSeq) => SubscribeCovers(l, w, afterSeq);
    case Advance =>
      match w.phase {
        case Scanning => ScanCovers(l, w);
        case Draining(_) => DrainCovers(l, w);
        case Locking => LockCovers(l, w);
        case _ =>
      }
  }

  lemma SameOutput(w: World, w': World)
    requires OutputOk(w) && Genuine(w) && w'.output == w.output && Batch(w') == Batch(w) && w'.scans == w.scans
    requires w'.after == w.after && w'.cursor == w.cursor && w'.history == w.history && w'.heard == w.heard
    ensures OutputOk(w') && Genuine(w')
  {
  }

  lemma NotifyCovers(l: Limits, w: World)
    requires Inv(l, w)
    ensures Inv(l, Next(l, w, Notify))
  {
    hide Pending, EvictedBeforeScan, LastN, RingsOk, OutputOk, Genuine;
    SameRings(l, w, Next(l, w, Notify));
    SameOutput(w, Next(l, w, Notify));
  }

  lemma SubscribeCovers(l: Limits, w: World, afterSeq: nat)
    requires Inv(l, w)
    ensures Inv(l, Next(l, w, Subscribe(afterSeq)))
  {
    hide Pending, EvictedBeforeScan, LastN;
  }

  lemma {:induction false} HappenKeeps(l: Limits, actions: seq<Action>)
    ensures Inv(l, Happen(l, actions))
  {
    hide Inv, Next;
    if actions == [] {
      IdleOk(l);
    } else {
      HappenKeeps(l, actions[..|actions| - 1]);
      NextKeeps(l, Happen(l, actions[..|actions| - 1]), actions[|actions| - 1]);
    }
  }

  lemma IdleOk(l: Limits)
    ensures Inv(l, IDLE)
  {
  }

  /** How many events were appended, of either sort. */
  function Appends(actions: seq<Action>): nat {
    if actions == [] then 0
    else
      var last := actions[|actions| - 1];
      Appends(actions[..|actions| - 1]) + if last.Append? || last.AppendAudio? then 1 else 0
  }

  /** The control events appended, or the audio, each numbered by its place among all appends. */
  function Sent(actions: seq<Action>, audio: bool): seq<Event> {
    if actions == [] then []
    else
      var init, last := Sent(actions[..|actions| - 1], audio), actions[|actions| - 1];
      match last
      case Append(kind, payload) => if audio then init else init + [Event(Appends(actions), kind, payload)]
      case AppendAudio(payload) => if audio then init + [Event(Appends(actions), Plain, payload)] else init
      case _ => init
  }

  lemma {:induction false} HistoryIsSent(l: Limits, actions: seq<Action>)
    ensures var w := Happen(l, actions);
            w.history == Sent(actions, false) && w.heard == Sent(actions, true) && w.ch.counter == Appends(actions)
  {
    hide Pending, LastN;
    if actions != [] {
      HistoryIsSent(l, actions[..|actions| - 1]);
    }
  }

  /**
   Neither sort of event evicts the other: each ring holds the last events of its own sort with their
   numbers, kinds and payloads, whatever was appended in between.
   */
  lemma AudioEvictsNothing(l: Limits, actions: seq<Action>)
    ensures var ch := Happen(l, actions).ch;
            && LastOf(Sent(actions, false), l.maxEvents, ch.events)
            && LastOf(Sent(actions, true), l.maxChunks, ch.audio)
            && ch.counter == Appends(actions)
  {
    hide Happen, Sent;
    HappenKeeps(l, actions);
    HistoryIsSent(l, actions);
    var w := Happen(l, actions);
    RingIsEnd(w.history, w.ch.events, l.maxEvents, w.ch.counter);
    RingIsEnd(w.heard, w.ch.audio, l.maxChunks, w.ch.counter);
  }

  /**
   What a subscriber gets, in every interleaving: only events appended, in strictly increasing order
   beyond its cursor and none after a terminal one; every control event and every chunk of audio it
   has passed, unless as many later ones of the same sort as their ring holds had arrived by the first
   scan that could find it; and it never sleeps on an unseen event without a notify still to come.
   */
  lemma SubscriberCorrect(l: Limits, actions: seq<Action>)
    ensures var (w, control, audio) := (Happen(l, actions), Sent(actions, false), Sent(actions, true));
            && (forall i, j :: 0 <= i < j < |w.output| ==> w.output[i].seqNo < w.output[j].seqNo)
            && (forall i :: 0 <= i < |w.output| ==> w.output[i].seqNo > w.after)
            && (forall i :: 0 <= i < |w.output| - 1 ==> w.output[i].kind != Terminal)
            && (forall e :: e in w.output ==> e in control || e in audio)
            && (forall i :: 0 <= i < |control| && w.after < control[i].seqNo <= w.cursor ==>
                  control[i] in w.output || EvictedBeforeScan(control, l.maxEvents, w.scans, i))
            && (forall i :: 0 <= i < |audio| && w.after < audio[i].seqNo <= w.cursor ==>
                  audio[i] in w.output || EvictedBeforeScan(audio, l.maxChunks, w.scans, i))
            && (w.phase.Sleeping? && w.owed == 0 ==> Pending(w.ch, w.cursor) == [])
  {
    hide Happen, Sent, RingsOk, ScansOk, Pending, EvictedBeforeScan;
    HappenKeeps(l, actions);
    HistoryIsSent(l, actions);
    var w := Happen(l, actions);
    PassedIsCovered(w, w.history, l.maxEvents);
    PassedIsCovered(w, w.heard, l.maxChunks);
  }

  lemma PassedIsCovered(w: World, sent: seq<Event>, cap: nat)
    requires OutputOk(w) && CoveredIn(w, sent, cap) && CoveredToEndIn(w, sent, cap)
    ensures forall i :: 0 <= i < |sent| && w.after < sent[i].seqNo <= w.cursor ==>
                          sent[i] in w.output || EvictedBeforeScan(sent, cap, w.scans, i)
  {
    hide EvictedBeforeScan;
  }

  /** The subscriber left alone for n moves. */
  function Moved(w: World, n: nat): (r: World)
    ensures r.ch == w.ch
    decreases n
  {
    if n == 0 then w else Moved(Advanced(w), n - 1)
  }

  lemma {:induction false} MovedOn(w: World, m: nat, n: nat)
    ensures Moved(Moved(w, m), n) == Moved(w, m + n)
    decreases m
  {
    hide Advanced;
    if m > 0 {
      MovedOn(Advanced(w), m - 1, n);
    }
  }

  /** Ended, or asleep with nothing left to see. */
  predicate CaughtUp(w: World) {
    w.phase.Stopped? || (w.phase.Sleeping? && Pending(w.ch, w.cursor) == [])
  }

  /** A batch is put out to its end, or to its terminal event. */
  lemma {:induction false} BatchEnds(w: World) returns (n: nat)
    requires w.phase.Draining?
    ensures var r := Moved(w, n);
            && (r.phase.Stopped? || r.phase.Locking?)
            && (r.phase.Locking? ==>
                  r.cursor == if w.phase.batch == [] then w.cursor else w.phase.batch[|w.phase.batch| - 1].seqNo)
    decreases |Batch(w)|
  {
    hide Pending;
    var w' := Advanced(w);
    if w'.phase.Draining? {
      var rest := BatchEnds(w');
      n := 1 + rest;
    } else {
      n := 1;
      assert Moved(w, 1) == Moved(w', 0) == w';
    }
  }

  lemma EmptyOrNot(es: seq<Event>)
    ensures es == [] || exists e :: e in es
  {
    assert es == [] || es[0] in es;
  }

  /** What is pending ends with all there is. */
  lemma NothingLeft(l: Limits, w: World, cursor: nat)
    requires RingsOk(l, w)
    requires var batch := Pending(w.ch, w.cursor);
             cursor == if batch == [] then w.cursor else batch[|batch| - 1].seqNo
    ensures Pending(w.ch, cursor) == []
  {
    hide Pending, RingsOk;
    PendingOk(l, w);
    var batch, left := Pending(w.ch, w.cursor), Pending(w.ch, cursor);
    forall e | e in w.ch.events || e in w.ch.audio ensures e.seqNo <= cursor {
      if e.seqNo > w.cursor {
        assert e in batch;
      }
    }
    EmptyOrNot(left);
  }

  lemma ScanCatchesUp(l: Limits, w: World) returns (n: nat)
    requires RingsOk(l, w) && w.phase.Scanning?
    ensures CaughtUp(Moved(w, n))
  {
    hide Pending, RingsOk;
    var batch := Pending(w.ch, w.cursor);
    var m := BatchEnds(Advanced(w));
    n := 1 + m;
    var r := Moved(w, n);
    if r.phase.Locking? {
      NothingLeft(l, w, r.cursor);
      MovedOn(w, n, 1);
      assert Moved(r, 1) == Moved(Advanced(r), 0) == Advanced(r);
      n := n + 1;
    }
  }

  lemma LockCatchesUp(l: Limits, w: World) returns (n: nat)
    requires RingsOk(l, w) && w.phase.Locking?
    ensures CaughtUp(Moved(w, n))
  {
    hide Pending, RingsOk;
    var w' := Advanced(w);
    assert Moved(w, 1) == Moved(w', 0) == w';
    n := 1;
    if w'.phase.Scanning? {
      SameRings(l, w, w');
      var m := ScanCatchesUp(l, w');
      MovedOn(w, 1, m);
      n := 1 + m;
    }
  }

  lemma {:induction false} MovedKeepsRings(l: Limits, w: World, n: nat)
    requires RingsOk(l, w)
    ensures RingsOk(l, Moved(w, n))
    decreases n
  {
    hide RingsOk, Advanced;
    if n > 0 {
      SameRings(l, w, Advanced(w));
      MovedKeepsRings(l, Advanced(w), n - 1);
    }
  }

  /** Once appends pause and one notify has gone out, a subscriber left to itself sees all there is to see. */
  lemma SubscriberCatchesUp(l: Limits, actions: seq<Action>) returns (n: nat)
    requires !Happen(l, actions).phase.Absent?
    ensures CaughtUp(Moved(Happen(l, actions + [Notify]), n))
  {
    hide Pending, RingsOk, Covered, CoveredToEnd, OutputOk, Genuine;
    HappenKeeps(l, actions + [Notify]);
    assert (actions + [Notify])[..|actions|] == actions;
    var w := Happen(l, actions + [Notify]);
    n := 0;
    assert w == Next(l, Happen(l, actions), Notify);
    HappenKeeps(l, actions);
    match w.phase
    case Scanning => n := ScanCatchesUp(l, w);
    case Locking => n := LockCatchesUp(l, w);
    case Draining(_) =>
      n := BatchEnds(w);
      var r := Moved(w, n);
      if r.phase.Locking? {
        MovedKeepsRings(l, w, n);
        var m := LockCatchesUp(l, r);
        MovedOn(w, n, m);
        n := n + m;
      }
    case _ =>
  }
}
