/** The host as it runs: it reads both files, evaluates one operation, and replaces each file that has to change. */
module PermissionHostEngine {
  import opened Wrappers
  import opened Order
  import opened JsonValue
  import opened JsonGrammar
  import JsonParse
  import opened JsonParser
  import opened JsonPrinter
  import opened PermissionTypes
  import opened PermissionStore
  import opened PermissionProjection
  import opened PermissionOps
  import opened PermissionHost
  import PermissionEngine
  import PermissionLoader
  import OverlayEngine

  /** The dispatch on the method name, each to its operation. */
  method Dispatch(s: Store, name: string, args: map<string, Json>, now: int64) returns (o: OpOutcome)
    ensures o == Apply(s, ToOp(name, args), now)
  {
    hide SetDefault, GrantTemp, SetDenied, ConsumeOnce, SweepExpired, RevokeSite, RevokeAll, StrOf, BoolOf;
    if name == "set-default" {
      o := PermissionEngine.SetDefault(s, StrOf(args, "identity"), StrOf(args, "capability"), StrOf(args, "state"), now);
    } else if name == "grant" {
      var req := GrantRequest(StrOf(args, "identity"), StrOf(args, "domain"), StrOf(args, "capability"), StrOf(args, "scope"), StrOf(args, "session_id"));
      o := PermissionEngine.GrantTemp(s, req, now);
    } else if name == "set-denied" {
      o := PermissionEngine.SetDenied(s, StrOf(args, "identity"), BoolOf(args, "denied"), now);
    } else if name == "consume-once" {
      o := PermissionEngine.ConsumeOnce(s, StrOf(args, "grant_id"), now);
    } else if name == "sweep" {
      o := PermissionEngine.SweepExpired(s, now, StrOf(args, "session_id"));
    } else if name == "revoke-site" {
      o := PermissionEngine.RevokeSite(s, StrOf(args, "identity"), StrOf(args, "domain"), now);
    } else {
      o := PermissionEngine.RevokeAll(s, StrOf(args, "identity"), now);
    }
  }

  method IsKnown(spec: seq<Arg>, name: string) returns (known: bool)
    ensures known <==> exists i :: 0 <= i < |spec| && spec[i].name == name
  {
    known := false;
    for i := 0 to |spec|
      invariant known <==> exists j :: 0 <= j < i && spec[j].name == name
    {
      known := known || spec[i].name == name;
    }
  }

  predicate Known(spec: seq<Arg>, args: map<string, Json>, k: string, disposable: bool)
    requires k in args
  {
    if k == "store" then disposable && args[k].Str? else exists i :: 0 <= i < |spec| && spec[i].name == k
  }

  method AllKnown(spec: seq<Arg>, args: map<string, Json>, disposable: bool) returns (ok: bool)
    ensures ok <==> forall k | k in args :: Known(spec, args, k, disposable)
  {
    hide SortedKeys, Known;
    var keys := KeysInOrder(args.Keys);
    for n := 0 to |keys|
      invariant forall m | 0 <= m < n :: Known(spec, args, keys[m], disposable)
    {
      assert keys[n] in args;
      var known := KnownArg(spec, args, keys[n], disposable);
      if !known { return false; }
    }
    forall k | k in args ensures Known(spec, args, k, disposable) { var m :| 0 <= m < |keys| && keys[m] == k; }
    return true;
  }

  method KnownArg(spec: seq<Arg>, args: map<string, Json>, k: string, disposable: bool) returns (known: bool)
    requires k in args
    ensures known <==> Known(spec, args, k, disposable)
  {
    if k == "store" { return disposable && args[k].Str?; }
    known := IsKnown(spec, k);
  }

  /** Every given argument is known, then every declared one is checked, in order. */
  method CheckArgs(spec: seq<Arg>, args: map<string, Json>, disposable: bool) returns (ok: bool)
    ensures ok <==> ArgsOk(spec, args, disposable)
  {
    hide Fits;
    var known := AllKnown(spec, args, disposable);
    if !known { return false; }
    for i := 0 to |spec|
      invariant forall j | 0 <= j < i :: (spec[j].required ==> spec[j].name in args) && (spec[j].name in args ==> Fits(args[spec[j].name], spec[j].kind))
    {
      var a := spec[i];
      if a.name !in args {
        if a.required { return false; }
        continue;
      }
      if !Fits(args[a.name], a.kind) { return false; }
    }
    return true;
  }

  /** A non-negative decimal of at most eighteen digits, accumulated from the left. */
  method ParseMillis(s: string) returns (r: Option<int64>)
    ensures r == if 0 < |s| <= 18 && (forall i | 0 <= i < |s| :: '0' <= s[i] <= '9') then Some(DecVal(s)) else None
  {
    if s == "" || |s| > 18 { return None; }
    var v: int := 0;
    for i := 0 to |s|
      invariant v == DecVal(s[..i]) && 0 <= v < Pow10(i)
      invariant forall j | 0 <= j < i :: '0' <= s[j] <= '9'
    {
      var c := s[i];
      if c < '0' || c > '9' { return None; }
      assert s[..i + 1][..i] == s[..i];
      v := v * 10 + (c as int - 48);
    }
    assert s[..|s|] == s;
    PowersGrow(|s|, 18);
    return Some(v);
  }

  ghost function Pow10(n: nat): nat { if n == 0 then 1 else 10 * Pow10(n - 1) }

  lemma {:induction false} PowersGrow(m: nat, n: nat)
    requires m <= n
    ensures Pow10(m) <= Pow10(n)
    ensures Pow10(18) == 1000000000000000000
  {
    assert Pow10(6) == 1000000;
    assert Pow10(12) == 1000000000000;
    if m < n { PowersGrow(m, n - 1); }
  }

  class Host {
    /** Without a directory the host works on the store that comes with the request. */
    const disposable: bool
    var store: Option<string>
    var clock: Option<string>
    /** How many file reads still succeed, and how many atomic writes still take effect. */
    var loads: nat
    var writes: nat

    constructor (d: Disk, disposable: bool, loads: nat, writes: nat)
      ensures OnDisk() == d && this.disposable == disposable && this.loads == loads && this.writes == writes
    {
      store, clock := d.store, d.clock;
      this.disposable, this.loads, this.writes := disposable, loads, writes;
    }

    function OnDisk(): Disk
      reads this
    {
      Disk(store, clock)
    }

    method ReadFile() returns (ok: bool)
      modifies this`loads
      ensures ok <==> old(loads) > 0
      ensures loads == if ok then old(loads) - 1 else 0
    {
      if loads == 0 { return false; }
      loads := loads - 1;
      return true;
    }

    method WriteStore(text: string) returns (ok: bool)
      modifies this
      ensures ok <==> old(writes) > 0
      ensures clock == old(clock) && loads == old(loads)
      ensures if ok then store == Some(text) && writes == old(writes) - 1 else store == old(store) && writes == 0
    {
      if writes == 0 { return false; }
      store, writes := Some(text), writes - 1;
      return true;
    }

    method WriteClock(text: string) returns (ok: bool)
      modifies this
      ensures ok <==> old(writes) > 0
      ensures store == old(store) && loads == old(loads)
      ensures if ok then clock == Some(text) && writes == old(writes) - 1 else clock == old(clock) && writes == 0
    {
      if writes == 0 { return false; }
      clock, writes := Some(text), writes - 1;
      return true;
    }

    /** The persisted high-water clock; a present file must be exactly its canonical text. */
    method ReadHighWater() returns (r: Option<int64>)
      ensures r == ClockOn(OnDisk())
    {
      hide JsonParse.Parse, Print;
      if clock.None? { return Some(0); }
      var parser := new Parser(clock.value);
      var v := parser.Run();
      if v.None? || !v.value.Obj? { return None; }
      var o := v.value.fields;
      if "last_seen_ms" !in o || !o["last_seen_ms"].Int? || o["last_seen_ms"].i < 0 || |o| != 1 { return None; }
      var canonical := Printer.Canonical(v.value);
      if canonical != clock.value { return None; }
      return Some(o["last_seen_ms"].i);
    }

    method LoadText(text: Option<string>) returns (s: Store)
      ensures s == match text case None => EMPTY_STORE case Some(t) => LoadStore(t)
    {
      hide LoadStore;
      if text.None? { return EMPTY_STORE; }
      s := PermissionLoader.LoadStore(text.value);
    }

    /** One request: the reply, and the disk after it, for any point at which reads or writes stop succeeding. */
    method Run(name: string, args: map<string, Json>, observed: int64) returns (r: Reply)
      modifies this
      ensures !disposable ==> (OnDisk(), r) == HostStep(old(OnDisk()), Event(name, args, observed, old(loads), old(writes)))
      ensures disposable ==> r == DisposableStep(name, args, observed) && OnDisk() == old(OnDisk()) && writes == old(writes)
    {
      hide Spec, ArgsOk, LoadStore, ClockOn, Apply, ToOp, ProjectText, JsonParse.Parse, SerializeStore, ReadClock, ClockText;
      var spec := Spec(name);
      if spec.None? { return Failure("kUnknownMethod", ""); }
      var wellFormed := CheckArgs(spec.value, args, disposable);
      if !wellFormed { return Failure("kMalformedInput", ""); }
      var text, lastSeen: int64 := None, 0;
      if disposable {
        StoreIsText(spec.value, args);
        if "store" in args { text := Some(args["store"].s); }
      } else {
        var readStore := ReadFile();
        if !readStore { return Failure("kIoError", ""); }
        text := store;
        var readClock := ReadFile();
        if !readClock { return Failure("kIoError", ""); }
        var highWater := ReadHighWater();
        if highWater.None? { return Failure("kFailClosed", ""); }
        lastSeen := highWater.value;
      }
      var s := LoadText(text);
      if name == "view" {
        r := View(s);
        return;
      }
      var now := EffectiveNow(lastSeen, observed);
      var o := Dispatch(s, name, args, now);
      if !o.ok { return Failure("kRefused", o.error); }
      var newText := PermissionLoader.SerializeStore(o.store);
      if !disposable {
        if text != Some(newText) {
          var saved := WriteStore(newText);
          if !saved { return Failure("kIoError", ""); }
        }
        if now > lastSeen {
          var mark := ClockCanonical(now);
          var saved := WriteClock(mark);
          if !saved { return Failure("kIoError", ""); }
        }
      }
      return DoneReply(now, o.rows, newText);
    }

    lemma StoreIsText(spec: seq<Arg>, args: map<string, Json>)
      requires ArgsOk(spec, args, disposable)
      ensures "store" in args ==> args["store"].Str?
    {
    }

    method View(s: Store) returns (r: Reply)
      ensures r == ViewReply(match JsonParse.Parse(ProjectText(s)) case Some(v) => v case None => Null)
    {
      hide JsonParse.Parse, ProjectText;
      var text := OverlayEngine.ProjectViewJson(s);
      var parser := new Parser(text);
      var view := parser.Run();
      r := ViewReply(if view.Some? then view.value else Null);
    }

    method ClockCanonical(n: int64) returns (text: string)
      ensures text == ClockText(n)
    {
      hide Print;
      text := Printer.Canonical(ClockJson(n));
    }
  }
}
