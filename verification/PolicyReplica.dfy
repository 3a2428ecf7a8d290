/**
  The replica protocol over a channel that loses, repeats and reorders: blobs are delivered in any order and any number, and
  the consumer keeps what it accepts.
 */
module PolicyReplica {
  import opened Wrappers
  import opened Order
  import opened PolicyTypes
  import opened PolicySnapshot
  import opened PolicySnapshotLaws
  import opened PolicyIntegrity
  import opened PolicyService

  /** A blob that was emitted, the state it was made of, and, for a diff, the base it was made against. */
  datatype Sent = Sent(full: bool, text: string, state: seq<Entry>, seqNo: nat, base: seq<Entry>, baseSeq: nat)

  /** Everything a service emits over a run, oldest first. */
  ghost function Log(H: string -> string, events: seq<Event>): seq<Sent> {
    if events == [] then []
    else
      var front, ev := events[..|events| - 1], events[|events| - 1];
      var s := RunBoth(H, front).0;
      if ev.Resolved? || Emitted(H, s, ev).OverBudget? then Log(H, front)
      else Log(H, front) + [Sent(ev.TakeFull?, Emitted(H, s, ev).text, StateEntries(s.state), s.seqNo + 1, s.lastState, s.lastSeq)]
  }

  ghost predicate SentOk(H: string -> string, b: Sent) {
    && DistinctKeys(b.state) && AllOk(b.state) && b.seqNo <= INT64_MAX
    && if b.full then EncodeFull(H, b.seqNo, b.state) == Blob(b.text)
       else EncodeDiff(H, b.seqNo, b.baseSeq, b.base, b.state) == Blob(b.text) && b.baseSeq <= INT64_MAX && DeltaOk(b.base, b.state)
  }

  lemma SentIsOk(H: string -> string, s: Service, c: Consumer, ev: Event)
    requires Synced(s, c) && s.seqNo < INT64_MAX && !ev.Resolved? && Emitted(H, s, ev).Blob?
    ensures SentOk(H, Sent(ev.TakeFull?, Emitted(H, s, ev).text, StateEntries(s.state), s.seqNo + 1, s.lastState, s.lastSeq))
  {
    hide EncodeFull, EncodeDiff, StateEntries, Emitted, Synced, DistinctKeys, AllOk, DeltaOk, Sort, StateOk;
    SyncedFacts(s, c);
    StateEntriesOk(s.state);
    DeltaIsOk(s.lastState, StateEntries(s.state));
    EmittedIs(H, s);
  }

  lemma {:induction false} LogIsOk(H: string -> string, events: seq<Event>)
    requires HashOk(H) && EventsOk(events) && |events| <= INT64_MAX
    ensures forall i | 0 <= i < |Log(H, events)| :: SentOk(H, Log(H, events)[i])
  {
    hide Emitted, StateEntries, HashOk, SentOk, RunBoth, Synced, Sort, LastSent;
    if events != [] {
      var front, ev := events[..|events| - 1], events[|events| - 1];
      LogIsOk(H, front);
      ReplicaAgrees(H, front);
      var (s, c) := RunBoth(H, front);
      if !ev.Resolved? && Emitted(H, s, ev).Blob? { SentIsOk(H, s, c, ev); }
    }
  }

  /** What a consumer makes of a blob. */
  ghost function Taken(H: string -> string, b: Sent, c: Consumer): Outcome {
    if b.full then DecodeFull(H, b.text) else ApplyDiff(H, b.text, c.entries)
  }

  /**
    One delivery, to any consumer with UTF-8 keys. A full blob is always taken. A diff is taken, to the state it was made of,
    exactly when the consumer agrees with its base wherever the diff says nothing; otherwise it is refused, or collides.
   */
  lemma DeliveryExact(H: string -> string, b: Sent, c: Consumer)
    requires HashOk(H) && SentOk(H, b) && KeysUtf8(c.entries)
    ensures var o := Taken(H, b, c);
            && (o.Snapshot? ==> (o.entries == Sort(b.state) && o.seqNo == b.seqNo) || Collides(H, o.entries, Sort(b.state)))
            && (b.full ==> o.Snapshot? && o.entries == Sort(b.state) && o.seqNo == b.seqNo)
            && (!b.full ==> (o.Snapshot? && o.entries == Sort(b.state) <==> AgreesElsewhere(b.base, b.state, c.entries)))
  {
    hide *;
    SentFacts(H, b);
    AllKeysUtf8(b.state);
    KeysUtf8Is(b.state);
    TakenIs(H, b, c);
    var o := Taken(H, b, c);
    if b.full {
      FullReconstructs(H, b.seqNo, b.state);
      CarriesIs(o, Sort(b.state), b.seqNo, b.seqNo);
    } else {
      DiffOnAnyBase(H, b.seqNo, b.baseSeq, b.base, b.state, c.entries);
      CarriesIs(o, Sort(b.state), b.seqNo, b.baseSeq);
      if o.Snapshot? { CollidesIs(H, o.entries, Sort(b.state)); }
    }
  }

  lemma SentFacts(H: string -> string, b: Sent)
    requires SentOk(H, b)
    ensures DistinctKeys(b.state) && AllOk(b.state) && b.seqNo <= INT64_MAX
    ensures b.full ==> EncodeFull(H, b.seqNo, b.state) == Blob(b.text)
    ensures !b.full ==> EncodeDiff(H, b.seqNo, b.baseSeq, b.base, b.state) == Blob(b.text) && b.baseSeq <= INT64_MAX && DeltaOk(b.base, b.state)
  {
    hide EncodeFull, EncodeDiff, DistinctKeys, AllOk, DeltaOk;
  }

  lemma TakenIs(H: string -> string, b: Sent, c: Consumer)
    ensures Taken(H, b, c) == if b.full then DecodeFull(H, b.text) else ApplyDiff(H, b.text, c.entries)
  {
    hide DecodeFull, ApplyDiff;
  }

  // Runs of deliveries

  ghost predicate InLog(log: seq<Sent>, order: seq<nat>) { forall i | 0 <= i < |order| :: order[i] < |log| }

  /** Blobs of the log delivered in this order: any of them, any number of times. */
  ghost function Deliver(H: string -> string, log: seq<Sent>, order: seq<nat>): Consumer
    requires InLog(log, order)
  {
    if order == [] then FRESH_CONSUMER
    else
      var c := Deliver(H, log, order[..|order| - 1]);
      Receive(c, Taken(H, log[order[|order| - 1]], c))
  }

  /** The last blob that was taken, if any was. */
  ghost function LastTaken(H: string -> string, log: seq<Sent>, order: seq<nat>): Option<nat>
    requires InLog(log, order)
    ensures LastTaken(H, log, order).Some? ==> LastTaken(H, log, order).value in order && LastTaken(H, log, order).value < |log|
  {
    if order == [] then None
    else
      var front, i := order[..|order| - 1], order[|order| - 1];
      if Taken(H, log[i], Deliver(H, log, front)).Snapshot? then Some(i) else LastTaken(H, log, front)
  }

  /** No delivery gives a state that collides with the one it was meant to give. */
  ghost predicate NoCollision(H: string -> string, log: seq<Sent>, order: seq<nat>)
    requires InLog(log, order)
  {
    forall i | 0 <= i < |order| ::
      var o := Taken(H, log[order[i]], Deliver(H, log, order[..i]));
      o.Snapshot? ==> !Collides(H, o.entries, Sort(log[order[i]].state))
  }

  ghost predicate HoldsLastTaken(H: string -> string, log: seq<Sent>, order: seq<nat>)
    requires InLog(log, order)
  {
    Deliver(H, log, order)
    == match LastTaken(H, log, order) case None => FRESH_CONSUMER case Some(i) => Consumer(Sort(log[i].state), log[i].seqNo)
  }

  lemma HeldKeys(H: string -> string, log: seq<Sent>, order: seq<nat>)
    requires InLog(log, order) && HoldsLastTaken(H, log, order) && forall i | 0 <= i < |log| :: SentOk(H, log[i])
    ensures KeysUtf8(Deliver(H, log, order).entries)
  {
    hide SentOk, Sort, Deliver, LastTaken, KeysUtf8, AllOk;
    match LastTaken(H, log, order)
    case None => KeysUtf8Is([]);
    case Some(i) =>
      SentFacts(H, log[i]);
      SortedOk(log[i].state);
      AllKeysUtf8(Sort(log[i].state));
      KeysUtf8Is(Sort(log[i].state));
  }

  lemma NoCollisionFront(H: string -> string, log: seq<Sent>, order: seq<nat>)
    requires order != [] && InLog(log, order) && NoCollision(H, log, order)
    ensures var (front, i) := (order[..|order| - 1], order[|order| - 1]); var o := Taken(H, log[i], Deliver(H, log, front));
            InLog(log, front) && NoCollision(H, log, front) && (o.Snapshot? ==> !Collides(H, o.entries, Sort(log[i].state)))
  {
    hide Taken, Deliver, Collides, Sort;
    var front := order[..|order| - 1];
    forall i | 0 <= i < |front|
      ensures var o := Taken(H, log[front[i]], Deliver(H, log, front[..i])); o.Snapshot? ==> !Collides(H, o.entries, Sort(log[front[i]].state))
    {
      assert front[..i] == order[..i] && front[i] == order[i];
    }
    assert order[|order| - 1] < |log|;
  }

  lemma {:induction false} DeliveriesHold(H: string -> string, log: seq<Sent>, order: seq<nat>)
    requires HashOk(H) && (forall i | 0 <= i < |log| :: SentOk(H, log[i])) && InLog(log, order) && NoCollision(H, log, order)
    ensures HoldsLastTaken(H, log, order)
  {
    hide HashOk, SentOk, Taken, Collides, Sort, KeysUtf8, NoCollision, AgreesElsewhere;
    if order != [] {
      var front, i := order[..|order| - 1], order[|order| - 1];
      NoCollisionFront(H, log, order);
      DeliveriesHold(H, log, front);
      HeldKeys(H, log, front);
      DeliveryExact(H, log[i], Deliver(H, log, front));
    }
  }

  /**
    Over any run of the service, and any loss, repetition and order of its blobs: the consumer always holds, in full, the state
    that the service had when it emitted the last blob that was taken.
   */
  lemma LossyReplica(H: string -> string, events: seq<Event>, order: seq<nat>)
    requires HashOk(H) && EventsOk(events) && |events| <= INT64_MAX && InLog(Log(H, events), order) && NoCollision(H, Log(H, events), order)
    ensures HoldsLastTaken(H, Log(H, events), order)
  {
    hide *;
    LogIsOk(H, events);
    DeliveriesHold(H, Log(H, events), order);
  }
}
