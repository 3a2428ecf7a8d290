/** What the host does with each request, by the name of its method and the values of its arguments. */
module PermissionHostMeaning {
  import opened Wrappers
  import opened Order
  import opened JsonValue
  import JsonParse
  import opened PermissionTypes
  import opened PermissionStore
  import opened PermissionProjection
  import opened PermissionOps
  import opened PermissionHost

  ghost predicate Texts(args: map<string, Json>, names: set<string>) { forall k | k in names :: k in args && args[k].Str? }

  ghost predicate AsksDefault(args: map<string, Json>, op: Op) {
    && args.Keys == {"identity", "capability", "state"} && Texts(args, {"identity", "capability", "state"})
    && op == OpSetDefault(args["identity"].s, args["capability"].s, args["state"].s)
  }

  /** The session is optional, and blank when it is left out. */
  ghost predicate AsksGrant(args: map<string, Json>, op: Op) {
    var four := {"identity", "domain", "capability", "scope"};
    && Texts(args, four) && op.OpGrant?
    && op.req.identity == args["identity"].s && op.req.domain == args["domain"].s && op.req.capability == args["capability"].s
    && op.req.scope == args["scope"].s
    && if args.Keys == four then op.req.sessionId == ""
       else args.Keys == four + {"session_id"} && args["session_id"].Str? && op.req.sessionId == args["session_id"].s
  }

  ghost predicate AsksDenied(args: map<string, Json>, op: Op) {
    args.Keys == {"identity", "denied"} && Texts(args, {"identity"}) && args["denied"].Bool? && op == OpSetDenied(args["identity"].s, args["denied"].b)
  }

  ghost predicate AsksSite(args: map<string, Json>, op: Op) {
    args.Keys == {"identity", "domain"} && Texts(args, {"identity", "domain"}) && op == OpRevokeSite(args["identity"].s, args["domain"].s)
  }

  ghost predicate OneText(args: map<string, Json>, k: string) { args.Keys == {k} && Texts(args, {k}) }

  /** A well-formed request for an operation: which operation, on which values. */
  ghost predicate Requests(name: string, args: map<string, Json>, op: Op) {
    || (name == "set-default" && AsksDefault(args, op))
    || (name == "grant" && AsksGrant(args, op))
    || (name == "set-denied" && AsksDenied(args, op))
    || (name == "consume-once" && OneText(args, "grant_id") && op == OpConsume(args["grant_id"].s))
    || (name == "sweep" && OneText(args, "session_id") && op == OpSweep(args["session_id"].s))
    || (name == "revoke-site" && AsksSite(args, op))
    || (name == "revoke-all" && OneText(args, "identity") && op == OpRevokeAll(args["identity"].s))
  }

  const METHODS := {"view", "set-default", "grant", "set-denied", "consume-once", "sweep", "revoke-site", "revoke-all"}

  lemma MethodsAre(name: string)
    ensures Spec(name).Some? <==> name in METHODS
  {
  }

  /** The names that a list of arguments declares. */
  ghost predicate Declares(spec: seq<Arg>, required: set<string>, optional: set<string>, flags: set<string>) {
    && (forall i | 0 <= i < |spec| :: spec[i].name != "store"
          && (if spec[i].required then spec[i].name in required else spec[i].name in optional)
          && spec[i].kind == if spec[i].name in flags then BoolArg else StrArg)
    && (forall k | k in required :: exists i :: 0 <= i < |spec| && spec[i].name == k && spec[i].required)
    && (forall k | k in optional :: exists i :: 0 <= i < |spec| && spec[i].name == k && !spec[i].required)
    && required !! optional
  }

  /** Arguments are in order when the required ones are there, nothing else but optional ones is, and each has its type. */
  lemma ArgsAre(spec: seq<Arg>, args: map<string, Json>, required: set<string>, optional: set<string>, flags: set<string>)
    requires Declares(spec, required, optional, flags)
    ensures ArgsOk(spec, args, false)
            <==> required <= args.Keys <= required + optional && forall k | k in args :: if k in flags then args[k].Bool? else args[k].Str?
  {
    if ArgsOk(spec, args, false) {
      forall k | k in required ensures k in args { var i :| 0 <= i < |spec| && spec[i].name == k && spec[i].required; }
      forall k | k in args ensures k in required + optional && if k in flags then args[k].Bool? else args[k].Str? {
        var i :| 0 <= i < |spec| && spec[i].name == k;
        assert Fits(args[k], spec[i].kind);
      }
    }
    if required <= args.Keys <= required + optional && forall k | k in args :: if k in flags then args[k].Bool? else args[k].Str? {
      forall k | k in args ensures k != "store" && exists i :: 0 <= i < |spec| && spec[i].name == k {
        if k in required { var i :| 0 <= i < |spec| && spec[i].name == k && spec[i].required; } else { var i :| 0 <= i < |spec| && spec[i].name == k && !spec[i].required; }
      }
      forall i | 0 <= i < |spec| ensures (spec[i].required ==> spec[i].name in args) && (spec[i].name in args ==> Fits(args[spec[i].name], spec[i].kind)) { }
    }
  }

  lemma DefaultSpec()
    ensures Spec("set-default").Some? && Declares(Spec("set-default").value, {"identity", "capability", "state"}, {}, {})
    ensures Spec("revoke-all").Some? && Declares(Spec("revoke-all").value, {"identity"}, {}, {})
  {
    var spec, all := Spec("set-default").value, Spec("revoke-all").value;
    assert spec[0].name == "identity" && spec[1].name == "capability" && spec[2].name == "state" && all[0].name == "identity";
  }

  lemma GrantSpec()
    ensures Spec("grant").Some? && Declares(Spec("grant").value, {"identity", "domain", "capability", "scope"}, {"session_id"}, {})
    ensures Spec("consume-once").Some? && Declares(Spec("consume-once").value, {"grant_id"}, {}, {})
  {
    var spec, once := Spec("grant").value, Spec("consume-once").value;
    assert spec[0].name == "identity" && spec[1].name == "domain" && spec[2].name == "capability" && spec[3].name == "scope" && spec[4].name == "session_id";
    assert once[0].name == "grant_id";
  }

  lemma OtherSpecs()
    ensures Spec("set-denied").Some? && Declares(Spec("set-denied").value, {"identity", "denied"}, {}, {"denied"})
    ensures Spec("sweep").Some? && Declares(Spec("sweep").value, {"session_id"}, {}, {})
    ensures Spec("revoke-site").Some? && Declares(Spec("revoke-site").value, {"identity", "domain"}, {}, {})
    ensures Spec("view") == Some([])
  {
    var denied, sweep, site := Spec("set-denied").value, Spec("sweep").value, Spec("revoke-site").value;
    assert denied[0].name == "identity" && denied[1].name == "denied" && sweep[0].name == "session_id" && site[0].name == "identity" && site[1].name == "domain";
  }

  ghost predicate Plain(name: string, args: map<string, Json>, required: set<string>, optional: set<string>, flags: set<string>) {
    Spec(name).Some?
    && (ArgsOk(Spec(name).value, args, false)
        <==> required <= args.Keys <= required + optional && forall k | k in args :: if k in flags then args[k].Bool? else args[k].Str?)
  }

  lemma ArgsWrittenOut(args: map<string, Json>)
    ensures Plain("set-default", args, {"identity", "capability", "state"}, {}, {}) && Plain("revoke-all", args, {"identity"}, {}, {})
    ensures Plain("grant", args, {"identity", "domain", "capability", "scope"}, {"session_id"}, {}) && Plain("consume-once", args, {"grant_id"}, {}, {})
    ensures Plain("set-denied", args, {"identity", "denied"}, {}, {"denied"}) && Plain("sweep", args, {"session_id"}, {}, {})
    ensures Plain("revoke-site", args, {"identity", "domain"}, {}, {})
    ensures Spec("view").Some? && (ArgsOk(Spec("view").value, args, false) <==> args == map[])
  {
    DefaultSpec();
    GrantSpec();
    OtherSpecs();
    hide Spec, Declares, ArgsOk;
    ArgsAre(Spec("set-default").value, args, {"identity", "capability", "state"}, {}, {});
    ArgsAre(Spec("revoke-all").value, args, {"identity"}, {}, {});
    ArgsAre(Spec("grant").value, args, {"identity", "domain", "capability", "scope"}, {"session_id"}, {});
    ArgsAre(Spec("consume-once").value, args, {"grant_id"}, {}, {});
    ArgsAre(Spec("set-denied").value, args, {"identity", "denied"}, {}, {"denied"});
    ArgsAre(Spec("sweep").value, args, {"session_id"}, {}, {});
    ArgsAre(Spec("revoke-site").value, args, {"identity", "domain"}, {}, {});
    ViewArgs(args);
  }

  lemma ViewArgs(args: map<string, Json>)
    ensures ArgsOk([], args, false) <==> args == map[]
  {
    if ArgsOk([], args, false) { assert args.Keys == {}; }
  }

  ghost predicate InOrder(name: string, args: map<string, Json>) { Spec(name).Some? && ArgsOk(Spec(name).value, args, false) }

  lemma DefaultAsked(args: map<string, Json>, op: Op)
    requires Plain("set-default", args, {"identity", "capability", "state"}, {}, {})
    ensures AsksDefault(args, op) <==> InOrder("set-default", args) && op == ToOp("set-default", args)
  {
    hide Spec, ArgsOk;
    if args.Keys == {"identity", "capability", "state"} { assert "identity" in args && "capability" in args && "state" in args; }
  }

  lemma DeniedAsked(args: map<string, Json>, op: Op)
    requires Plain("set-denied", args, {"identity", "denied"}, {}, {"denied"})
    ensures AsksDenied(args, op) <==> InOrder("set-denied", args) && op == ToOp("set-denied", args)
  {
    hide Spec, ArgsOk;
    if args.Keys == {"identity", "denied"} { assert "identity" in args && "denied" in args; }
  }

  lemma SiteAsked(args: map<string, Json>, op: Op)
    requires Plain("revoke-site", args, {"identity", "domain"}, {}, {})
    ensures AsksSite(args, op) <==> InOrder("revoke-site", args) && op == ToOp("revoke-site", args)
  {
    hide Spec, ArgsOk;
    if args.Keys == {"identity", "domain"} { assert "identity" in args && "domain" in args; }
  }

  lemma OneAsked(name: string, args: map<string, Json>, k: string)
    requires Plain(name, args, {k}, {}, {})
    ensures InOrder(name, args) <==> OneText(args, k)
    ensures OneText(args, k) ==> StrOf(args, k) == args[k].s
  {
    hide Spec, ArgsOk;
    if args.Keys == {k} { assert k in args; }
  }

  lemma GrantAsked(args: map<string, Json>, op: Op)
    requires Plain("grant", args, {"identity", "domain", "capability", "scope"}, {"session_id"}, {})
    ensures AsksGrant(args, op) <==> InOrder("grant", args) && op == ToOp("grant", args)
  {
    GrantKeys(args);
    GrantOp(args);
    hide Spec, ArgsOk, ToOp;
    var four := {"identity", "domain", "capability", "scope"};
    if four <= args.Keys { assert "identity" in args && "domain" in args && "capability" in args && "scope" in args; }
    if args.Keys == four + {"session_id"} { assert "session_id" in args; }
  }

  lemma GrantOp(args: map<string, Json>)
    ensures ToOp("grant", args)
            == OpGrant(GrantRequest(StrOf(args, "identity"), StrOf(args, "domain"), StrOf(args, "capability"), StrOf(args, "scope"), StrOf(args, "session_id")))
  {
  }

  /** A request asks for an operation exactly when it is in order and not the view, and then for the one the host dispatches to. */
  lemma RequestsAre(name: string, args: map<string, Json>, op: Op)
    ensures Requests(name, args, op) <==> InOrder(name, args) && name != "view" && op == ToOp(name, args)
  {
    MethodsAre(name);
    ArgsWrittenOut(args);
    hide Spec, ArgsOk, Plain, AsksDefault, AsksGrant, AsksDenied, AsksSite, OneText;
    DefaultAsked(args, op);
    DeniedAsked(args, op);
    SiteAsked(args, op);
    GrantAsked(args, op);
    OneAsked("consume-once", args, "grant_id");
    OneAsked("sweep", args, "session_id");
    OneAsked("revoke-all", args, "identity");
    hide StrOf, BoolOf;
  }

  lemma GrantKeys(args: map<string, Json>)
    ensures {"identity", "domain", "capability", "scope"} <= args.Keys <= {"identity", "domain", "capability", "scope"} + {"session_id"}
            <==> args.Keys == {"identity", "domain", "capability", "scope"} || args.Keys == {"identity", "domain", "capability", "scope", "session_id"}
  {
  }

  // The outcome

  /** What the host does with an operation when its reads and writes succeed: the reply, and both files. */
  ghost predicate Done(d: Disk, d': Disk, r: Reply, op: Op, observed: int64)
    requires ClockOn(d).Some?
  {
    var seen := ClockOn(d).value;
    var now: int64 := if observed > seen then observed else seen;
    var o := Apply(StoreOn(d), op, now);
    if !o.ok then d' == d && r == Failure("kRefused", o.error)
    else
      && r == DoneReply(now, o.rows, SerializeStore(o.store))
      && d'.store == Some(SerializeStore(o.store))
      && d'.clock == if observed > seen then Some(ClockText(observed)) else d.clock
  }

  /** Every well-formed request, on a disk whose clock reads, whose store may be anything, does its operation on its values. */
  lemma HostServes(d: Disk, e: Event, op: Op)
    requires Requests(e.name, e.args, op) && ClockOn(d).Some? && e.loads >= 2 && e.writes >= 2
    ensures var (d', r) := HostStep(d, e); Done(d, d', r, op, e.observed)
  {
    RequestsAre(e.name, e.args, op);
    hide Requests, Spec, ArgsOk, ToOp, StoreOn, ClockOn, Apply, SerializeStore, ClockText, ProjectText, JsonParse.Parse;
  }

  /** The seven methods, the view and nothing else are known; a known one with other arguments is malformed. */
  lemma HostRefuses(d: Disk, e: Event)
    ensures e.name !in METHODS ==> HostStep(d, e) == (d, Failure("kUnknownMethod", ""))
    ensures e.name in METHODS && (if e.name == "view" then e.args != map[] else forall op :: !Requests(e.name, e.args, op)) ==>
              HostStep(d, e) == (d, Failure("kMalformedInput", ""))
  {
    MethodsAre(e.name);
    ArgsWrittenOut(e.args);
    if e.name in METHODS { RequestsAre(e.name, e.args, ToOp(e.name, e.args)); }
    hide Requests, Spec, ArgsOk, ToOp, StoreOn, ClockOn, Apply, SerializeStore, ClockText, ProjectText, JsonParse.Parse, Plain;
  }

  /** The view is what the projected text reads as, and changes nothing. */
  lemma HostShows(d: Disk, e: Event)
    requires e.name == "view" && e.args == map[] && ClockOn(d).Some? && e.loads >= 2
    ensures HostStep(d, e).0 == d && HostStep(d, e).1.ViewReply?
    ensures JsonParse.Parse(ProjectText(StoreOn(d))) == Some(HostStep(d, e).1.view) || JsonParse.Parse(ProjectText(StoreOn(d))).None?
  {
    ArgsWrittenOut(e.args);
    hide Spec, ArgsOk, ToOp, StoreOn, ClockOn, Apply, ProjectText, JsonParse.Parse, Plain;
  }

  /** A request that comes with its store is served the same way, on that store and from time zero, and nothing is written. */
  lemma DisposableServes(name: string, args: map<string, Json>, observed: int64, op: Op)
    requires Requests(name, args - {"store"}, op) && ("store" in args ==> args["store"].Str?)
    ensures var d := Disk(if "store" in args then Some(args["store"].s) else None, None);
            && ClockOn(d) == Some(0)
            && exists d' :: Done(d, d', DisposableStep(name, args, observed), op, observed)
  {
    var d := Disk(if "store" in args then Some(args["store"].s) else None, None);
    var e := Event(name, args - {"store"}, observed, 2, 2);
    NoClock(d);
    hide *;
    HostServes(d, e, op);
    KnownName(name, args - {"store"}, op);
    DisposableIsFreshHost(name, args, observed);
  }

  lemma KnownName(name: string, args: map<string, Json>, op: Op)
    requires Requests(name, args, op)
    ensures Spec(name).Some?
  {
    RequestsAre(name, args, op);
    hide Spec, Requests;
  }
}
