/**
  The clock-owning host over the permission operations: one request reads two files, applies one operation and writes
  each file atomically, or is interrupted before either write.
 */
module PermissionHost {
  import opened Wrappers
  import opened Order
  import opened Utf8
  import opened JsonValue
  import JsonParse
  import opened JsonRoundTrip
  import opened PermissionTypes
  import opened PermissionStore
  import opened PermissionProjection
  import opened PermissionOps
  import opened PermissionInvariants
  import opened PermissionEffects

  datatype Disk = Disk(store: Option<string>, clock: Option<string>)

  datatype Reply =
    | Failure(code: string, token: string)
    | ViewReply(view: Json)
    | DoneReply(now: int64, rows: seq<AuditRow>, text: string)

  /** `loads` is how many file reads still succeed, `writes` how many atomic writes still take effect, before the disk fails or the process dies. */
  datatype Event = Event(name: string, args: map<string, Json>, observed: int64, loads: nat, writes: nat)

  // Requests

  datatype ArgType = StrArg | BoolArg
  datatype Arg = Arg(name: string, kind: ArgType, required: bool)

  /** The arguments of each method; nothing for an unknown one. */
  function Spec(name: string): Option<seq<Arg>> {
    if name == "view" then Some([])
    else if name == "set-default" then Some([Arg("identity", StrArg, true), Arg("capability", StrArg, true), Arg("state", StrArg, true)])
    else if name == "grant" then Some([Arg("identity", StrArg, true), Arg("domain", StrArg, true), Arg("capability", StrArg, true),
                                       Arg("scope", StrArg, true), Arg("session_id", StrArg, false)])
    else if name == "set-denied" then Some([Arg("identity", StrArg, true), Arg("denied", BoolArg, true)])
    else if name == "consume-once" then Some([Arg("grant_id", StrArg, true)])
    else if name == "sweep" then Some([Arg("session_id", StrArg, true)])
    else if name == "revoke-site" then Some([Arg("identity", StrArg, true), Arg("domain", StrArg, true)])
    else if name == "revoke-all" then Some([Arg("identity", StrArg, true)])
    else None
  }

  predicate Fits(v: Json, kind: ArgType) { if kind == StrArg then v.Str? else v.Bool? }

  /** In disposable mode the store may ride along as an argument, which no other mode takes. */
  predicate ArgsOk(spec: seq<Arg>, args: map<string, Json>, disposable: bool) {
    && (forall k | k in args :: if k == "store" then disposable && args[k].Str? else exists i :: 0 <= i < |spec| && spec[i].name == k)
    && (forall i | 0 <= i < |spec| :: (spec[i].required ==> spec[i].name in args) && (spec[i].name in args ==> Fits(args[spec[i].name], spec[i].kind)))
  }

  /** A string argument, or the empty string when it is left out. */
  function StrOf(args: map<string, Json>, k: string): string {
    if k in args && args[k].Str? then args[k].s else ""
  }

  function BoolOf(args: map<string, Json>, k: string): bool { k in args && args[k].Bool? && args[k].b }

  function ToOp(name: string, args: map<string, Json>): Op {
    if name == "set-default" then OpSetDefault(StrOf(args, "identity"), StrOf(args, "capability"), StrOf(args, "state"))
    else if name == "grant" then
      OpGrant(GrantRequest(StrOf(args, "identity"), StrOf(args, "domain"), StrOf(args, "capability"), StrOf(args, "scope"), StrOf(args, "session_id")))
    else if name == "set-denied" then OpSetDenied(StrOf(args, "identity"), BoolOf(args, "denied"))
    else if name == "consume-once" then OpConsume(StrOf(args, "grant_id"))
    else if name == "sweep" then OpSweep(StrOf(args, "session_id"))
    else if name == "revoke-site" then OpRevokeSite(StrOf(args, "identity"), StrOf(args, "domain"))
    else OpRevokeAll(StrOf(args, "identity"))
  }

  // The clock file

  function ClockJson(n: int64): Json { Obj(map["last_seen_ms" := Int(n)]) }

  ghost function ClockText(n: int64): string { Print(ClockJson(n)) }

  ghost function ReadClock(text: string): Option<int64> {
    match JsonParse.Parse(text)
    case None => None
    case Some(v) =>
      if v.Obj? && "last_seen_ms" in v.fields && v.fields["last_seen_ms"].Int? && v.fields["last_seen_ms"].i >= 0
         && |v.fields| == 1 && Print(v) == text
      then Some(v.fields["last_seen_ms"].i) else None
  }

  /** The clock file holds exactly the canonical text of a non-negative time. */
  lemma ClockRoundTrip(n: int64, text: string)
    ensures n >= 0 ==> ReadClock(ClockText(n)) == Some(n)
    ensures ReadClock(text) == Some(n) ==> text == ClockText(n)
  {
    hide JsonParse.Parse, Print, Valid, CharLen;
    ClockClean(n);
    CleanReads(ClockJson(n), 1);
    if ReadClock(text) == Some(n) {
      var v := JsonParse.Parse(text).value;
      OneField(v.fields, "last_seen_ms");
    }
  }

  lemma ClockClean(n: int64)
    ensures Clean(ClockJson(n), 1)
  {
    hide Valid, Clean;
    assert Ascii("last_seen_ms");
    AsciiUtf8("last_seen_ms");
    ScalarClean(Int(n), 0);
    ObjectClean(ClockJson(n), 1);
  }

  lemma OneField(o: map<string, Json>, k: string)
    requires |o| == 1 && k in o
    ensures o == map[k := o[k]]
  {
    assert |o.Keys - {k}| == 0;
    forall x | x in o ensures x == k { assert x !in o.Keys - {k}; }
  }

  // One request

  ghost function StoreOn(d: Disk): Store {
    match d.store case None => EMPTY_STORE case Some(text) => LoadStore(text)
  }

  /** The high-water clock; a file that does not read is no clock at all. */
  ghost function ClockOn(d: Disk): Option<int64> {
    match d.clock case None => Some(0) case Some(text) => ReadClock(text)
  }

  /** The store first, then the clock; each only when it changes. */
  ghost function WriteBack(d: Disk, o: OpOutcome, lastSeen: int64, now: int64, writes: nat): (Disk, Reply) {
    var text := SerializeStore(o.store);
    var changed := d.store != Some(text);
    if changed && writes == 0 then (d, Failure("kIoError", ""))
    else
      var saved := d.(store := Some(text));
      if now <= lastSeen then (saved, DoneReply(now, o.rows, text))
      else if writes == (if changed then 1 else 0) then (saved, Failure("kIoError", ""))
      else (saved.(clock := Some(ClockText(now))), DoneReply(now, o.rows, text))
  }

  ghost function HostStep(d: Disk, e: Event): (Disk, Reply) {
    if Spec(e.name).None? then (d, Failure("kUnknownMethod", ""))
    else if !ArgsOk(Spec(e.name).value, e.args, false) then (d, Failure("kMalformedInput", ""))
    else if e.loads < 2 then (d, Failure("kIoError", ""))
    else if ClockOn(d).None? then (d, Failure("kFailClosed", ""))
    else if e.name == "view" then (d, ViewReply(match JsonParse.Parse(ProjectText(StoreOn(d))) case Some(v) => v case None => Null))
    else
      var lastSeen := ClockOn(d).value;
      var now := EffectiveNow(lastSeen, e.observed);
      var o := Apply(StoreOn(d), ToOp(e.name, e.args), now);
      if !o.ok then (d, Failure("kRefused", o.error)) else WriteBack(d, o, lastSeen, now, e.writes)
  }

  /** Disposable mode: the store comes with the request, there is no clock before it, and nothing is written. */
  ghost function DisposableStep(name: string, args: map<string, Json>, observed: int64): Reply {
    if Spec(name).None? then Failure("kUnknownMethod", "")
    else if !ArgsOk(Spec(name).value, args, true) then Failure("kMalformedInput", "")
    else
      var s := if "store" in args then LoadStore(args["store"].s) else EMPTY_STORE;
      if name == "view" then ViewReply(match JsonParse.Parse(ProjectText(s)) case Some(v) => v case None => Null)
      else
        var now := EffectiveNow(0, observed);
        var o := Apply(s, ToOp(name, args), now);
        if !o.ok then Failure("kRefused", o.error) else DoneReply(now, o.rows, SerializeStore(o.store))
  }

  lemma NoStoreArg(name: string)
    requires Spec(name).Some?
    ensures forall i | 0 <= i < |Spec(name).value| :: Spec(name).value[i].name != "store"
  {
  }

  lemma StoreAside(spec: seq<Arg>, args: map<string, Json>)
    requires (forall i | 0 <= i < |spec| :: spec[i].name != "store") && ("store" in args ==> args["store"].Str?)
    ensures ArgsOk(spec, args, true) <==> ArgsOk(spec, args - {"store"}, false)
  {
    hide Fits;
    var rest := args - {"store"};
    assert forall k :: k in rest <==> k in args && k != "store";
    assert forall i | 0 <= i < |spec| :: spec[i].name in rest <==> spec[i].name in args;
    if ArgsOk(spec, rest, false) {
      forall k | k in args && k != "store" ensures exists i :: 0 <= i < |spec| && spec[i].name == k { assert k in rest; }
    }
  }

  lemma OtherArgs(name: string, args: map<string, Json>)
    requires Spec(name).Some? && ("store" in args ==> args["store"].Str?)
    ensures ArgsOk(Spec(name).value, args, true) <==> ArgsOk(Spec(name).value, args - {"store"}, false)
    ensures ToOp(name, args) == ToOp(name, args - {"store"})
  {
    NoStoreArg(name);
    StoreAside(Spec(name).value, args);
    hide Spec, ArgsOk;
  }

  /** It answers as a host that finds that store and no clock on its disk, and whose reads and writes all succeed. */
  lemma DisposableIsFreshHost(name: string, args: map<string, Json>, observed: int64)
    ensures var d := Disk(if "store" in args && args["store"].Str? then Some(args["store"].s) else None, None);
            DisposableStep(name, args, observed)
            == if Spec(name).Some? && "store" in args && !args["store"].Str? then Failure("kMalformedInput", "")
               else HostStep(d, Event(name, args - {"store"}, observed, 2, 2)).1
  {
    if Spec(name).Some? && ("store" in args ==> args["store"].Str?) { OtherArgs(name, args); }
    hide Spec, ToOp, LoadStore, Apply, SerializeStore, ProjectText, JsonParse.Parse, ClockText;
    if Spec(name).Some? && "store" in args && !args["store"].Str? { assert !ArgsOk(Spec(name).value, args, true); }
    hide ArgsOk;
  }

  // What runs keep

  /** Either file absent or good. */
  ghost predicate DiskOk(d: Disk) { !StoreOn(d).corrupt && ClockOn(d).Some? }

  /** Arguments come out of the JSON parser, so their strings are UTF-8. */
  ghost predicate EventOk(e: Event) { Utf8Clean(Obj(e.args)) }

  /** The operation of an event, if it was accepted and its store is the one on disk afterwards. */
  ghost function Committed(d: Disk, e: Event): seq<Step> {
    if Spec(e.name).None? || !ArgsOk(Spec(e.name).value, e.args, false) || e.loads < 2 || ClockOn(d).None? || e.name == "view" then []
    else
      var now := EffectiveNow(ClockOn(d).value, e.observed);
      var o := Apply(StoreOn(d), ToOp(e.name, e.args), now);
      if o.ok && (d.store == Some(SerializeStore(o.store)) || e.writes > 0) then [Step(ToOp(e.name, e.args), now)] else []
  }

  lemma StoreOnSound(d: Disk)
    requires !StoreOn(d).corrupt
    ensures StoreOk(StoreOn(d)) && StoreUtf8(StoreOn(d)) && StoreOn(d).nextSeq <= INT64_MAX
  {
    hide LoadStore, StoreOk, StoreUtf8;
    EmptyOk();
    if d.store.Some? { LoadedIsCanonical(d.store.value); }
  }

  lemma OpIsUtf8(e: Event)
    requires EventOk(e)
    ensures OpUtf8(ToOp(e.name, e.args))
  {
    hide Valid;
    EmptyUtf8();
    forall k | k in e.args && e.args[k].Str? ensures Valid(e.args[k].s) { assert Utf8Clean(e.args[k]); }
    hide Utf8Clean;
  }

  lemma RunOne(s: Store, step: Step)
    ensures Run(s, [step]) == Apply(s, step.op, step.now).store && Run(s, []) == s
  {
    hide Apply;
    assert [step][..0] == [];
  }

  /** The written-back store reads as the outcome. */
  lemma SavedReads(d: Disk, o: OpOutcome, lastSeen: int64, now: int64, writes: nat)
    requires !o.store.corrupt && StoreOk(o.store) && StoreUtf8(o.store) && o.store.nextSeq <= INT64_MAX
    requires ClockOn(d) == Some(lastSeen) && now >= lastSeen >= 0
    ensures var (d', r) := WriteBack(d, o, lastSeen, now, writes);
            && (if d.store == Some(SerializeStore(o.store)) || writes > 0 then StoreOn(d') == o.store else d' == d)
            && (ClockOn(d') == Some(lastSeen) || ClockOn(d') == Some(now))
            && (r.DoneReply? ==> r.now == now && ClockOn(d') == Some(now) && r.rows == o.rows && d'.store == Some(r.text))
  {
    hide StoreOk, StoreUtf8, SerializeStore, LoadStore, ReadClock, ClockText;
    StoreRoundTrip(o.store);
    ClockRoundTrip(now, "");
  }

  lemma ClockIsNatural(d: Disk)
    requires ClockOn(d).Some?
    ensures ClockOn(d).value >= 0
  {
    hide JsonParse.Parse, Print;
  }

  /** One event: the disk stays good, the store moves by the committed operation, the clock never back. */
  lemma StepCommits(d: Disk, e: Event)
    requires DiskOk(d) && EventOk(e) && Run(StoreOn(d), Committed(d, e)).nextSeq <= INT64_MAX
    ensures var (d', r) := HostStep(d, e);
            && DiskOk(d') && StoreOn(d') == Run(StoreOn(d), Committed(d, e))
            && ClockOn(d').value >= ClockOn(d).value
            && (r.DoneReply? ==> |Committed(d, e)| == 1 && r.now == Committed(d, e)[0].now && ClockOn(d') == Some(r.now) && d'.store == Some(r.text)
                                 && r.rows == Apply(StoreOn(d), Committed(d, e)[0].op, r.now).rows)
  {
    hide StoreOn, ClockOn, Apply, Run, StoreOk, StoreUtf8, SerializeStore, WriteBack, ArgsOk, Spec, ToOp, ProjectText, JsonParse.Parse, EventOk;
    var s := StoreOn(d);
    RunOne(s, Step(OpSweep(""), 0));
    if Spec(e.name).Some? && ArgsOk(Spec(e.name).value, e.args, false) && e.loads >= 2 && e.name != "view" {
      ClockIsNatural(d);
      StoreOnSound(d);
      OpIsUtf8(e);
      var lastSeen := ClockOn(d).value;
      var now := EffectiveNow(lastSeen, e.observed);
      var op := ToOp(e.name, e.args);
      var o := Apply(s, op, now);
      if o.ok {
        EveryOpKeeps(s, op, now);
        EveryOpUtf8(s, op, now);
        RunOne(s, Step(op, now));
        WellFormedIsGood(o.store);
        if Committed(d, e) != [] { SavedReads(d, o, lastSeen, now, e.writes); } else { NotSaved(d, o, lastSeen, now); }
      }
    }
  }

  lemma NotSaved(d: Disk, o: OpOutcome, lastSeen: int64, now: int64)
    requires d.store != Some(SerializeStore(o.store))
    ensures WriteBack(d, o, lastSeen, now, 0) == (d, Failure("kIoError", ""))
  {
    hide SerializeStore, ClockText;
  }

  lemma WellFormedIsGood(s: Store)
    requires StoreOk(s)
    ensures !s.corrupt
  {
  }

  ghost function RunDisk(d: Disk, events: seq<Event>): Disk {
    if events == [] then d else HostStep(RunDisk(d, events[..|events| - 1]), events[|events| - 1]).0
  }

  ghost function AllCommitted(d: Disk, events: seq<Event>): seq<Step> {
    if events == [] then []
    else
      var front := events[..|events| - 1];
      AllCommitted(d, front) + Committed(RunDisk(d, front), events[|events| - 1])
  }

  lemma {:induction false} RunAppend(s: Store, a: seq<Step>, b: seq<Step>)
    ensures Run(s, a + b) == Run(Run(s, a), b)
  {
    hide Apply;
    if b == [] {
      assert a + b == a;
    } else {
      var front := b[..|b| - 1];
      assert (a + b)[..|a + b| - 1] == a + front;
      RunAppend(s, a, front);
    }
  }

  /**
    Crash safety: for arbitrary clocks and interruptions, a disk whose files start absent or good stays so; the store on
    it is the fold of the committed operations, and the high-water clock never goes back.
   */
  lemma {:induction false} CrashSafety(d: Disk, events: seq<Event>)
    requires DiskOk(d) && forall i | 0 <= i < |events| :: EventOk(events[i])
    requires Run(StoreOn(d), AllCommitted(d, events)).nextSeq <= INT64_MAX
    ensures var d' := RunDisk(d, events);
            DiskOk(d') && StoreOn(d') == Run(StoreOn(d), AllCommitted(d, events)) && ClockOn(d').value >= ClockOn(d).value
  {
    hide HostStep, Committed, Run, StoreOn, ClockOn, StoreOk, StoreUtf8, EventOk;
    if events == [] {
      RunOne(StoreOn(d), Step(OpSweep(""), 0));
    } else {
      var front, last := events[..|events| - 1], events[|events| - 1];
      var before := RunDisk(d, front);
      StoreOnSound(d);
      RunAppend(StoreOn(d), AllCommitted(d, front), Committed(before, last));
      RunOk(StoreOn(d), AllCommitted(d, front));
      RunOk(Run(StoreOn(d), AllCommitted(d, front)), Committed(before, last));
      CrashSafety(d, front);
      StepCommits(before, last);
    }
  }

  /** Where a store file is corrupt, or a clock file is, no event ever writes. */
  lemma CorruptUntouched(d: Disk, e: Event)
    requires !DiskOk(d)
    ensures HostStep(d, e).0 == d
  {
    hide WriteBack, JsonParse.Parse, ArgsOk, Spec, ToOp, ProjectText, StoreOn, ClockOn, Apply;
    if StoreOn(d).corrupt && ClockOn(d).Some? {
      CorruptRefuses(StoreOn(d), ToOp(e.name, e.args), EffectiveNow(ClockOn(d).value, e.observed));
    }
  }

  lemma {:induction false} CorruptForever(d: Disk, events: seq<Event>)
    requires !DiskOk(d)
    ensures RunDisk(d, events) == d
  {
    hide HostStep, DiskOk;
    if events != [] {
      CorruptForever(d, events[..|events| - 1]);
      CorruptUntouched(d, events[|events| - 1]);
    }
  }

  // From an empty disk

  lemma SeqMovesByOne(s: Store, step: Step)
    requires StoreOk(s) && Minted(s)
    ensures Apply(s, step.op, step.now).store.nextSeq <= s.nextSeq + 1
  {
    hide SetDefault, SetDenied, GrantTemp, ConsumeOnce, SweepExpired, RevokeSite, RevokeAll, StoreOk, Minted, Issued;
    var now := step.now;
    MintedStep(s, step);
    match step.op
    case OpSetDefault(id, cap, st) => SetDefaultSeq(s, id, cap, st, now);
    case OpGrant(req) => if Issued(s, step).None? { NotIssued(s, step); }
    case OpSetDenied(id, denied) => SetDeniedSeq(s, id, denied, now);
    case OpConsume(id) => ConsumeSeq(s, id, now);
    case OpSweep(session) => SweepSeq(s, now, session);
    case OpRevokeSite(id, domain) => RevokeSiteKeeps(s, id, domain, now);
    case OpRevokeAll(id) => RevokeAllKeeps(s, id, now);
  }

  lemma NotIssued(s: Store, step: Step)
    requires step.op.OpGrant? && Issued(s, step).None?
    ensures Apply(s, step.op, step.now).store == s
  {
    hide GrantRefusal, NextFree, GrantId, StoreIds;
  }

  lemma {:induction false} SeqIsBounded(steps: seq<Step>)
    ensures Run(EMPTY_STORE, steps).nextSeq <= 1 + |steps|
  {
    hide Apply, StoreOk, Minted;
    if steps != [] {
      var front := steps[..|steps| - 1];
      SeqIsBounded(front);
      RunMinted(front);
      SeqMovesByOne(Run(EMPTY_STORE, front), steps[|steps| - 1]);
    }
  }

  lemma {:induction false} CommittedAtMost(d: Disk, events: seq<Event>)
    ensures |AllCommitted(d, events)| <= |events|
  {
    hide HostStep, StoreOn, ClockOn, Spec, ToOp, ArgsOk, Apply;
    if events != [] { CommittedAtMost(d, events[..|events| - 1]); }
  }

  /** From an empty disk the counter cannot run out in fewer than 2^63 - 1 events, so crash safety holds outright. */
  lemma CrashSafetyFromNothing(events: seq<Event>)
    requires |events| < INT64_MAX && forall i | 0 <= i < |events| :: EventOk(events[i])
    ensures var d' := RunDisk(Disk(None, None), events);
            DiskOk(d') && StoreOn(d') == Run(EMPTY_STORE, AllCommitted(Disk(None, None), events))
  {
    hide RunDisk, AllCommitted, Run, EventOk;
    var d := Disk(None, None);
    CommittedAtMost(d, events);
    SeqIsBounded(AllCommitted(d, events));
    CrashSafety(d, events);
  }

  /** Time as the store sees it goes back only across an interruption: after a completed request it never does. */
  lemma TimeHolds(d: Disk, e: Event, later: Event)
    requires DiskOk(d) && EventOk(e) && Run(StoreOn(d), Committed(d, e)).nextSeq <= INT64_MAX
    requires HostStep(d, e).1.DoneReply? && Committed(HostStep(d, e).0, later) != []
    ensures Committed(HostStep(d, e).0, later)[0].now >= Committed(d, e)[0].now
  {
    StepCommits(d, e);
    hide HostStep, StoreOn, ClockOn, Apply, Run, ArgsOk, Spec, ToOp;
  }

  lemma WriteFallsBehind(d: Disk, o: OpOutcome, lastSeen: int64, now: int64, writes: nat)
    requires ClockOn(d) == Some(lastSeen) && now >= lastSeen >= 0
    requires d.store == Some(SerializeStore(o.store)) || writes > 0
    ensures var d' := WriteBack(d, o, lastSeen, now, writes).0;
            ClockOn(d').Some? && (ClockOn(d').value < now <==> now > lastSeen && writes == if d.store == Some(SerializeStore(o.store)) then 0 else 1)
  {
    hide SerializeStore, ReadClock, ClockText;
    ClockRoundTrip(now, "");
  }

  /** The writes that a request has to make to its store file. */
  ghost function StoreWritesDue(d: Disk, e: Event): nat
    requires Committed(d, e) != []
  {
    if d.store == Some(SerializeStore(Apply(StoreOn(d), ToOp(e.name, e.args), EffectiveNow(ClockOn(d).value, e.observed)).store)) then 0 else 1
  }

  /**
    The clock on disk falls behind a committed operation exactly when time has moved and the event has just the writes that
    its store needs, so that it stops before the clock.
   */
  lemma ClockFallsBehind(d: Disk, e: Event)
    requires ClockOn(d).Some? && Committed(d, e) != []
    ensures var d' := HostStep(d, e).0;
            ClockOn(d').Some? && (ClockOn(d').value < Committed(d, e)[0].now <==> e.observed > ClockOn(d).value && e.writes == StoreWritesDue(d, e))
  {
    hide StoreOn, Apply, ArgsOk, Spec, ToOp, SerializeStore, ClockOn, WriteBack;
    ClockIsNatural(d);
    var now := EffectiveNow(ClockOn(d).value, e.observed);
    WriteFallsBehind(d, Apply(StoreOn(d), ToOp(e.name, e.args), now), ClockOn(d).value, now, e.writes);
  }

  // An interruption that lets time go back

  function DenyEvent(identity: string, denied: bool, observed: int64, writes: nat): Event {
    Event("set-denied", map["identity" := Str(identity), "denied" := Bool(denied)], observed, 2, writes)
  }

  /**
    On an empty disk a request at time `t` is stopped between its two writes: its store is on disk and its time is not. The
    next request, at an earlier time `u`, is then evaluated and committed at `u`.
   */
  lemma TimeGoesBack(identity: string, t: int64, u: int64)
    requires identity != "" && Valid(identity) && 0 <= u < t
    ensures var (d, e) := (Disk(None, None), DenyEvent(identity, true, t, 1));
            var (d', r) := HostStep(d, e);
            && r == Failure("kIoError", "") && d'.store.Some? && d'.clock.None?
            && Committed(d, e) == [Step(OpSetDenied(identity, true), t)]
            && Committed(d', DenyEvent(identity, false, u, 2)) == [Step(OpSetDenied(identity, false), u)]
  {
    hide *;
    var d, e, f := Disk(None, None), DenyEvent(identity, true, t, 1), DenyEvent(identity, false, u, 2);
    DenyEventIs(identity, true, t, 1);
    DenyEventIs(identity, false, u, 2);
    DenyEventOk(identity, true, t, 1);
    DeniesNew(identity, t, u);
    NoClock(d);
    StoppedBetween(d, e, OpSetDenied(identity, true), t);
    RunOne(EMPTY_STORE, Step(OpSetDenied(identity, true), t));
    NothingOnDisk();
    StepCommits(d, e);
    var d' := HostStep(d, e).0;
    NoClock(d');
    CommitsWhenWritten(d', f, OpSetDenied(identity, false), u);
  }

  predicate Asks(e: Event, op: Op) {
    Spec(e.name).Some? && ArgsOk(Spec(e.name).value, e.args, false) && e.loads >= 2 && e.name != "view" && ToOp(e.name, e.args) == op
  }

  lemma NoClock(d: Disk)
    requires d.clock.None?
    ensures ClockOn(d) == Some(0)
  {
  }

  lemma NothingOnDisk()
    ensures StoreOn(Disk(None, None)) == EMPTY_STORE && DiskOk(Disk(None, None)) && !EMPTY_STORE.corrupt
  {
  }

  lemma CommitsWhenWritten(d: Disk, e: Event, op: Op, now: int64)
    requires Asks(e, op) && ClockOn(d) == Some(0) && e.observed == now >= 0 && e.writes > 0 && Apply(StoreOn(d), op, now).ok
    ensures Committed(d, e) == [Step(op, now)]
  {
    hide ArgsOk, Spec, ToOp, ClockOn, StoreOn, Apply, SerializeStore;
    assert EffectiveNow(0, now) == now;
  }

  /** One write left where two are needed: the store is saved, the time is not, and the request fails. */
  lemma StoppedBetween(d: Disk, e: Event, op: Op, now: int64)
    requires Asks(e, op) && d == Disk(None, None) && ClockOn(d) == Some(0) && e.observed == now > 0 && e.writes == 1
    requires Apply(EMPTY_STORE, op, now).ok
    ensures HostStep(d, e) == (Disk(Some(SerializeStore(Apply(EMPTY_STORE, op, now).store)), None), Failure("kIoError", ""))
    ensures Committed(d, e) == [Step(op, now)]
  {
    NothingOnDisk();
    CommitsWhenWritten(d, e, op, now);
    hide ArgsOk, Spec, ToOp, ClockOn, StoreOn, Apply, SerializeStore, ClockText, Committed, DiskOk;
    assert EffectiveNow(0, now) == now;
  }

  lemma DenyEventIs(identity: string, denied: bool, observed: int64, writes: nat)
    ensures var e := DenyEvent(identity, denied, observed, writes);
            Asks(e, OpSetDenied(identity, denied)) && e.observed == observed && e.writes == writes
  {
    var e := DenyEvent(identity, denied, observed, writes);
    var spec := Spec(e.name).value;
    assert spec[0].name == "identity" && spec[1].name == "denied";
  }

  lemma DenyEventOk(identity: string, denied: bool, observed: int64, writes: nat)
    requires Valid(identity)
    ensures EventOk(DenyEvent(identity, denied, observed, writes))
  {
    hide Valid, CharLen;
    assert Ascii("identity") && Ascii("denied");
    AsciiUtf8("identity");
    AsciiUtf8("denied");
    var args := DenyEvent(identity, denied, observed, writes).args;
    assert Utf8Clean(Str(identity)) && Utf8Clean(Bool(denied));
    forall k | k in args ensures Valid(k) && Utf8Clean(args[k]) { assert k == "identity" || k == "denied"; }
  }

  lemma DeniesNew(identity: string, t: int64, u: int64)
    requires identity != ""
    ensures var o := Apply(EMPTY_STORE, OpSetDenied(identity, true), t);
            o.ok && !o.store.corrupt && o.store.nextSeq == EMPTY_STORE.nextSeq <= INT64_MAX && Apply(o.store, OpSetDenied(identity, false), u).ok
  {
  }
}
