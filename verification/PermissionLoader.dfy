/**
  Loading and saving the overlay store as the source does it: loops over the parsed objects that fill records and a
  set of grant ids shared by the whole document, and loops that build the document to print.
 */
module PermissionLoader {
  import opened Wrappers
  import opened Order
  import opened JsonValue
  import opened JsonParse
  import opened JsonParser
  import opened JsonPrinter
  import opened PermissionTypes
  import opened PermissionStore
  import Spec = PermissionStore
  import opened PermissionInvariants

  const STORE_KEY_LIST := ["contract", "contract_version", "identities", "next_seq"]
  const RECORD_KEY_LIST := ["denied", "defaults", "extras", "grants"]
  const GRANT_KEY_LIST := ["id", "identity", "domain", "capability", "scope", "created_at", "expires_at", "session_id",
                           "remaining_uses", "revoked", "revoked_at"]

  /** Same size and every expected key present, which is set equality when no expected key repeats. */
  method HasKeysExactly(v: Json, keys: seq<string>, ghost all: set<string>) returns (ok: bool)
    requires |all| == |keys| && forall k :: k in all <==> k in keys
    ensures ok <==> KeysExactly(v, all)
  {
    if !v.Obj? || |v.fields| != |keys| { return false; }
    for i := 0 to |keys|
      invariant forall j | 0 <= j < i :: keys[j] in v.fields
    {
      if keys[i] !in v.fields { return false; }
    }
    SubsetOfSameSize(all, v.fields.Keys);
    return true;
  }

  lemma SubsetOfSameSize(a: set<string>, b: set<string>)
    requires a <= b && |a| == |b|
    ensures a == b
  {
    if a != b {
      var x :| x in b && x !in a;
      SmallerOrEqual(a, b - {x});
    }
  }

  lemma {:induction false} SmallerOrEqual(a: set<string>, b: set<string>)
    requires a <= b
    ensures |a| <= |b|
  {
    if x :| x in a {
      SmallerOrEqual(a - {x}, b - {x});
    }
  }

  lemma KeyLists()
    ensures |RECORD_KEYS| == |RECORD_KEY_LIST| && forall k :: k in RECORD_KEYS <==> k in RECORD_KEY_LIST
    ensures |STORE_KEYS| == |STORE_KEY_LIST| && forall k :: k in STORE_KEYS <==> k in STORE_KEY_LIST
  {
  }

  lemma GrantKeyList()
    ensures |GRANT_KEYS| == |GRANT_KEY_LIST| && forall k :: k in GRANT_KEYS <==> k in GRANT_KEY_LIST
  {
    var a := {"id", "identity", "domain", "capability"};
    var b := {"scope", "created_at", "expires_at", "session_id"};
    var c := {"remaining_uses", "revoked", "revoked_at"};
    assert |a| == 4 && |b| == 4 && |c| == 3;
    assert |a + b| == 8;
    assert GRANT_KEYS == a + b + c;
  }

  ghost function IdsOf(gs: seq<StoredGrant>): set<string> { set i | 0 <= i < |gs| :: gs[i].id }

  lemma IdsAre(gs: seq<StoredGrant>, id: string)
    ensures id in IdsOf(gs) <==> HasId(gs, id)
  {
  }

  lemma IdsGrow(gs: seq<StoredGrant>, g: StoredGrant)
    ensures IdsOf(gs + [g]) == IdsOf(gs) + {g.id}
    ensures UniqueIds(gs + [g]) <==> UniqueIds(gs) && g.id !in IdsOf(gs)
  {
    var all := gs + [g];
    assert all[|gs|] == g && forall i | 0 <= i < |gs| :: all[i] == gs[i];
    if UniqueIds(all) {
      forall i, j | 0 <= i < j < |gs| ensures gs[i].id != gs[j].id { assert all[i].id != all[j].id; }
      forall i | 0 <= i < |gs| ensures gs[i].id != g.id { assert all[i].id != all[|gs|].id; }
    }
    forall id ensures id in IdsOf(all) <==> id in IdsOf(gs) + {g.id} {
      if i :| 0 <= i < |gs| && gs[i].id == id { assert all[i].id == id; }
      if id == g.id { assert all[|gs|].id == id; }
    }
  }

  /** The pass over a document: `ids` holds every grant id met so far, in any identity. */
  class Loader {
    var ids: set<string>

    constructor ()
      ensures ids == {}
    {
      ids := {};
    }

    /** One grant: it must have the schema, and an id not met before. */
    method ParseGrant(v: Json, key: string) returns (r: Option<StoredGrant>)
      modifies this
      ensures r == match Spec.ParseGrant(v, key) case None => None case Some(g) => if g.id in old(ids) then None else Some(g)
      ensures r.Some? ==> ids == old(ids) + {r.value.id}
    {
      hide ParseCapability, ParseScope;
      GrantKeyList();
      var shaped := HasKeysExactly(v, GRANT_KEY_LIST, GRANT_KEYS);
      if !shaped { return None; }
      var id := GetStr(v, "id");
      if id.None? || id.value == "" { return None; }
      if id.value in ids { return None; }
      ids := ids + {id.value};
      var identity, domain := GetStr(v, "identity"), GetStr(v, "domain");
      if identity.None? || identity.value != key { return None; }
      if domain.None? || domain.value == "" { return None; }
      var cap, scope := GetStr(v, "capability"), GetStr(v, "scope");
      if cap.None? || ParseCapability(cap.value).None? { return None; }
      if scope.None? || ParseScope(scope.value).None? { return None; }
      var created, expires, session := GetInt(v, "created_at"), GetInt(v, "expires_at"), GetStr(v, "session_id");
      if created.None? || expires.None? || session.None? { return None; }
      var uses, revoked, revokedAt := GetInt(v, "remaining_uses"), GetBool(v, "revoked"), GetInt(v, "revoked_at");
      if uses.None? || revoked.None? || revokedAt.None? { return None; }
      match ParseScope(scope.value).value {
        case Once =>
          if expires.value != 0 || session.value != "" { return None; }
          if uses.value < 0 || uses.value > 1 { return None; }
        case Session =>
          if expires.value != 0 || uses.value != 0 || session.value == "" { return None; }
        case SevenDays =>
          if uses.value != 0 || session.value != "" { return None; }
          if expires.value != created.value + SEVEN_DAYS_MILLIS { return None; }
      }
      if !revoked.value && revokedAt.value != 0 { return None; }
      return Some(StoredGrant(id.value, identity.value, domain.value, ParseCapability(cap.value).value, ParseScope(scope.value).value,
                              created.value, expires.value, session.value, uses.value, revoked.value, revokedAt.value));
    }

    /** All the grants of one identity. */
    method ParseGrants(a: seq<Json>, key: string) returns (r: Option<seq<StoredGrant>>)
      modifies this
      ensures r.Some? <==> GrantsParse(a, key) && UniqueIds(ParsedGrants(a, key)) && IdsOf(ParsedGrants(a, key)) !! old(ids)
      ensures r.Some? ==> r.value == ParsedGrants(a, key) && ids == old(ids) + IdsOf(r.value)
    {
      hide Spec.ParseGrant, UniqueIds, IdsOf, GrantsParse, ParsedGrants;
      var gs: seq<StoredGrant> := [];
      ghost var before := ids;
      NoGrantsYet(key);
      var i := 0;
      assert a[..0] == [];
      while i < |a|
        invariant i <= |a| && GrantsParse(a[..i], key) && gs == ParsedGrants(a[..i], key)
        invariant UniqueIds(gs) && IdsOf(gs) !! before && ids == before + IdsOf(gs)
      {
        GrantsTurn(a, key, i);
        var g := ParseGrant(a[i], key);
        if g.None? {
          GrantsFail(a, key, i, before);
          return None;
        }
        IdsGrow(gs, g.value);
        gs := gs + [g.value];
        i := i + 1;
      }
      assert a[..|a|] == a;
      return Some(gs);
    }

    /** One identity record. */
    method ParseIdentity(v: Json, key: string) returns (r: Option<IdentityRecord>)
      modifies this
      ensures r.Some? <==> ParseRecord(v, key).Some? && UniqueIds(ParseRecord(v, key).value.grants)
                           && IdsOf(ParseRecord(v, key).value.grants) !! old(ids)
      ensures r.Some? ==> r == ParseRecord(v, key) && ids == old(ids) + IdsOf(r.value.grants)
    {
      KeyLists();
      hide UniqueIds, IdsOf, GrantsParse, ParsedGrants, DefaultsParse, ParsedDefaults, ExtrasParse, ParsedExtras;
      var shaped := HasKeysExactly(v, RECORD_KEY_LIST, RECORD_KEYS);
      if !shaped { return None; }
      var denied := GetBool(v, "denied");
      if denied.None? { return None; }
      if !v.fields["defaults"].Obj? { return None; }
      var defaults := ParseDefaults(v.fields["defaults"].fields);
      if defaults.None? { return None; }
      if !v.fields["extras"].Obj? { return None; }
      var extras := ParseExtras(v.fields["extras"].fields);
      if extras.None? { return None; }
      if !v.fields["grants"].Arr? { return None; }
      var grants := ParseGrants(v.fields["grants"].items, key);
      if grants.None? { return None; }
      return Some(IdentityRecord(defaults.value, extras.value, denied.value, grants.value));
    }

    /** The whole document. */
    method ParseStore(v: Json) returns (r: Option<Store>)
      requires ids == {}
      modifies this
      ensures r == Spec.ParseStore(v)
    {
      KeyLists();
      hide RecordsParse, DistinctIds, ParsedRecords, ParseRecord;
      var shaped := HasKeysExactly(v, STORE_KEY_LIST, STORE_KEYS);
      if !shaped { return None; }
      var contract, version, seqNo := GetStr(v, "contract"), GetInt(v, "contract_version"), GetInt(v, "next_seq");
      if contract.None? || contract.value != "permission-store" { return None; }
      if version.None? || version.value != 1 { return None; }
      if seqNo.None? || seqNo.value < 1 { return None; }
      if !v.fields["identities"].Obj? { return None; }
      var records := ParseRecords(v.fields["identities"].fields);
      if records.None? { return None; }
      return Some(Store(false, seqNo.value, records.value));
    }

    /** The loop over the identities, in key order, with the shared id set. */
    method ParseRecords(o: map<string, Json>) returns (r: Option<map<string, IdentityRecord>>)
      requires ids == {}
      modifies this
      ensures r == if RecordsParse(o) && DistinctIds(ParsedRecords(o)) then Some(ParsedRecords(o)) else None
    {
      hide ParseRecord, UniqueIds, IdsOf, DistinctIds, RecordsParse, ParsedRecords, LoadedSoFar, SortedKeys;
      var keys := KeysInOrder(o.Keys);
      DistinctKeys(o.Keys);
      var out: map<string, IdentityRecord> := map[];
      LoadedNone(o);
      for n := 0 to |keys|
        invariant LoadedSoFar(o, keys[..n], out, ids)
      {
        var key := keys[n];
        if key == "" {
          BadKey(o, key);
          return None;
        }
        ghost var before := ids;
        var ir := ParseIdentity(o[key], key);
        if ir.None? {
          LoadFails(o, keys, n, out, before);
          return None;
        }
        LoadedOne(o, keys, n, out, before, ir.value);
        out := out[key := ir.value];
      }
      assert keys[..|keys|] == keys;
      LoadedAll(o, keys, out, ids);
      return Some(out);
    }
  }

  // Defaults and extras

  method ParseDefaults(o: map<string, Json>) returns (r: Option<map<Capability, CapState>>)
    ensures r == if DefaultsParse(o) then Some(ParsedDefaults(o)) else None
  {
    hide *;
    var keys := KeysInOrder(o.Keys);
    var d: map<Capability, CapState> := map[];
    DefaultsStart(o);
    for n := 0 to |keys|
      invariant DefaultsSoFar(o, keys[..n], d)
    {
      var k := keys[n];
      var c := ParseCapability(k);
      if c.None? || !o[k].Str? || ParseCapState(o[k].s).None? {
        DefaultsFail(o, k);
        return None;
      }
      DefaultsTurn(o, keys, n, d);
      d := d[c.value := ParseCapState(o[k].s).value];
    }
    assert keys[..|keys|] == keys;
    DefaultsEnd(o, keys, d);
    return Some(d);
  }

  ghost predicate DefaultsSoFar(o: map<string, Json>, done: seq<string>, d: map<Capability, CapState>) {
    && (forall k | k in done :: k in o && ParseCapability(k).Some? && o[k].Str? && ParseCapState(o[k].s).Some?)
    && (forall c :: c in d <==> CapabilityName(c) in done)
    && (forall c | c in d :: d[c] == ParseCapState(o[CapabilityName(c)].s).value)
  }

  lemma DefaultsStart(o: map<string, Json>)
    ensures DefaultsSoFar(o, [], map[])
  {
  }

  lemma DefaultsFail(o: map<string, Json>, k: string)
    requires k in o && (ParseCapability(k).None? || !o[k].Str? || ParseCapState(o[k].s).None?)
    ensures !DefaultsParse(o)
  {
    hide ParseCapability, ParseCapState;
  }

  lemma DefaultsTurn(o: map<string, Json>, keys: seq<string>, n: nat, d: map<Capability, CapState>)
    requires n < |keys| && keys[n] in o && DefaultsSoFar(o, keys[..n], d)
    requires ParseCapability(keys[n]).Some? && o[keys[n]].Str? && ParseCapState(o[keys[n]].s).Some?
    ensures DefaultsSoFar(o, keys[..n + 1], d[ParseCapability(keys[n]).value := ParseCapState(o[keys[n]].s).value])
  {
    hide ParseCapability, ParseCapState, CapabilityName;
    var k := keys[n];
    assert keys[..n + 1] == keys[..n] + [k];
    NamesRoundTrip(Deny, Camera, Once, k);
    forall x: Capability ensures CapabilityName(x) == k <==> x == ParseCapability(k).value { NamesRoundTrip(Deny, x, Once, ""); }
  }

  lemma DefaultsEnd(o: map<string, Json>, keys: seq<string>, d: map<Capability, CapState>)
    requires (forall k :: k in keys <==> k in o) && DefaultsSoFar(o, keys, d)
    ensures DefaultsParse(o) && d == ParsedDefaults(o)
  {
    hide ParseCapability, ParseCapState, CapabilityName;
    forall c: Capability ensures c in CAPABILITIES { FourCapabilities(c); }
    assert d == ParsedDefaults(o);
  }

  lemma FourCapabilities(c: Capability)
    ensures c in CAPABILITIES
  {
    match c {
      case Geolocation => assert c in {Geolocation, Camera, Microphone, Notifications};
      case Camera => assert c in {Geolocation, Camera, Microphone, Notifications};
      case Microphone => assert c in {Geolocation, Camera, Microphone, Notifications};
      case Notifications => assert c in {Geolocation, Camera, Microphone, Notifications};
    }
  }

  method ParseExtras(o: map<string, Json>) returns (r: Option<map<string, CapState>>)
    ensures r == if ExtrasParse(o) then Some(ParsedExtras(o)) else None
  {
    hide *;
    var keys := KeysInOrder(o.Keys);
    var x: map<string, CapState> := map[];
    ExtrasStart(o);
    for n := 0 to |keys|
      invariant ExtrasSoFar(o, keys[..n], x)
    {
      var k := keys[n];
      if !IsExtraCapability(k) || !o[k].Str? || ParseExtraState(o[k].s).None? {
        ExtrasFail(o, k);
        return None;
      }
      ExtrasTurn(o, keys, n, x);
      x := x[k := ParseExtraState(o[k].s).value];
    }
    assert keys[..|keys|] == keys;
    ExtrasEnd(o, keys, x);
    return Some(x);
  }

  ghost predicate ExtrasSoFar(o: map<string, Json>, done: seq<string>, x: map<string, CapState>) {
    && (forall k | k in done :: k in o && IsExtraCapability(k) && o[k].Str? && ParseExtraState(o[k].s).Some?)
    && (forall k :: k in x <==> k in done)
    && (forall k | k in x :: x[k] == ParseExtraState(o[k].s).value)
  }

  lemma ExtrasStart(o: map<string, Json>)
    ensures ExtrasSoFar(o, [], map[])
  {
  }

  lemma ExtrasFail(o: map<string, Json>, k: string)
    requires k in o && (!IsExtraCapability(k) || !o[k].Str? || ParseExtraState(o[k].s).None?)
    ensures !ExtrasParse(o)
  {
    hide IsExtraCapability, ParseExtraState;
  }

  lemma ExtrasTurn(o: map<string, Json>, keys: seq<string>, n: nat, x: map<string, CapState>)
    requires n < |keys| && keys[n] in o && ExtrasSoFar(o, keys[..n], x)
    requires IsExtraCapability(keys[n]) && o[keys[n]].Str? && ParseExtraState(o[keys[n]].s).Some?
    ensures ExtrasSoFar(o, keys[..n + 1], x[keys[n] := ParseExtraState(o[keys[n]].s).value])
  {
    hide IsExtraCapability, ParseExtraState;
    assert keys[..n + 1] == keys[..n] + [keys[n]];
  }

  lemma ExtrasEnd(o: map<string, Json>, keys: seq<string>, x: map<string, CapState>)
    requires (forall k :: k in keys <==> k in o) && ExtrasSoFar(o, keys, x)
    ensures ExtrasParse(o) && x == ParsedExtras(o)
  {
    hide IsExtraCapability, ParseExtraState;
    assert x == ParsedExtras(o);
  }

  // The grants loop, one turn at a time

  lemma NoGrantsYet(key: string)
    ensures GrantsParse([], key) && ParsedGrants([], key) == [] && UniqueIds([]) && IdsOf([]) == {}
  {
  }

  lemma GrantsTurn(a: seq<Json>, key: string, i: nat)
    requires i < |a| && GrantsParse(a[..i], key)
    ensures GrantsParse(a[..i + 1], key) <==> Spec.ParseGrant(a[i], key).Some?
    ensures GrantsParse(a[..i + 1], key) ==> ParsedGrants(a[..i + 1], key) == ParsedGrants(a[..i], key) + [Spec.ParseGrant(a[i], key).value]
  {
    hide Spec.ParseGrant;
    assert a[..i + 1] == a[..i] + [a[i]];
    if GrantsParse(a[..i + 1], key) {
      assert Spec.ParseGrant(a[..i + 1][i], key).Some?;
    }
  }

  lemma GrantsFail(a: seq<Json>, key: string, i: nat, before: set<string>)
    requires i < |a| && GrantsParse(a[..i], key)
    requires match Spec.ParseGrant(a[i], key) case None => true case Some(g) => g.id in before + IdsOf(ParsedGrants(a[..i], key))
    ensures !(GrantsParse(a, key) && UniqueIds(ParsedGrants(a, key)) && IdsOf(ParsedGrants(a, key)) !! before)
  {
    hide Spec.ParseGrant;
    if GrantsParse(a, key) {
      var gs, front := ParsedGrants(a, key), ParsedGrants(a[..i], key);
      assert gs[i] == Spec.ParseGrant(a[i], key).value;
      if gs[i].id in before {
        assert gs[i].id in IdsOf(gs);
      } else {
        var j :| 0 <= j < |front| && front[j].id == gs[i].id;
        assert gs[j] == Spec.ParseGrant(a[j], key).value == front[j];
      }
    }
  }

  // The identities loop, one turn at a time

  /** The part of a document that has been read: records, and all their ids, none of them twice. */
  ghost predicate LoadedSoFar(o: map<string, Json>, done: seq<string>, out: map<string, IdentityRecord>, ids: set<string>) {
    && (forall k | k in done :: k in o && k != "" && ParseRecord(o[k], k).Some?)
    && (forall k :: k in out <==> k in done)
    && (forall k | k in out :: out[k] == ParseRecord(o[k], k).value)
    && DistinctIds(out)
    && (forall id :: id in ids <==> exists k :: k in out && HasId(out[k].grants, id))
  }

  lemma LoadedNone(o: map<string, Json>)
    ensures LoadedSoFar(o, [], map[], {})
  {
    hide ParseRecord;
  }

  lemma DistinctKeys(s: set<string>)
    ensures forall i, j | 0 <= i < j < |SortedKeys(s)| :: SortedKeys(s)[i] != SortedKeys(s)[j]
  {
    StringsAreOrdered();
    hide Less;
  }

  lemma BadKey(o: map<string, Json>, key: string)
    requires key in o && key == ""
    ensures !RecordsParse(o)
  {
    hide ParseRecord;
  }

  lemma LoadedOne(o: map<string, Json>, keys: seq<string>, n: nat, out: map<string, IdentityRecord>, ids: set<string>, r: IdentityRecord)
    requires n < |keys| && keys[n] in o && keys[n] != "" && keys[n] !in keys[..n] && LoadedSoFar(o, keys[..n], out, ids)
    requires ParseRecord(o[keys[n]], keys[n]) == Some(r) && UniqueIds(r.grants) && IdsOf(r.grants) !! ids
    ensures LoadedSoFar(o, keys[..n + 1], out[keys[n] := r], ids + IdsOf(r.grants))
  {
    hide ParseRecord, HasId, UniqueIds, IdsOf, DistinctIds;
    var k, out' := keys[n], out[keys[n] := r];
    assert keys[..n + 1] == keys[..n] + [k];
    forall id ensures id in IdsOf(r.grants) <==> HasId(r.grants, id) { IdsAre(r.grants, id); }
    DistinctParts(out);
    DistinctParts(out');
    forall id ensures id in ids + IdsOf(r.grants) <==> exists x :: x in out' && HasId(out'[x].grants, id) {
      if id in ids { var x :| x in out && HasId(out[x].grants, id); assert x in out' && out'[x] == out[x]; }
      if HasId(r.grants, id) { assert HasId(out'[k].grants, id); }
    }
  }

  lemma LoadFails(o: map<string, Json>, keys: seq<string>, n: nat, out: map<string, IdentityRecord>, ids: set<string>)
    requires n < |keys| && keys[n] in o && keys[n] !in keys[..n] && LoadedSoFar(o, keys[..n], out, ids)
    requires match ParseRecord(o[keys[n]], keys[n]) case None => true case Some(r) => !(UniqueIds(r.grants) && IdsOf(r.grants) !! ids)
    ensures !(RecordsParse(o) && DistinctIds(ParsedRecords(o)))
  {
    hide ParseRecord, HasId, UniqueIds, IdsOf, DistinctIds;
    var k := keys[n];
    if RecordsParse(o) {
      var all := ParsedRecords(o);
      DistinctParts(all);
      var r := all[k];
      if UniqueIds(r.grants) {
        var id :| id in IdsOf(r.grants) && id in ids;
        IdsAre(r.grants, id);
        var x :| x in out && HasId(out[x].grants, id);
        assert all[x] == out[x] && HasId(all[x].grants, id);
      }
    }
  }

  lemma LoadedAll(o: map<string, Json>, keys: seq<string>, out: map<string, IdentityRecord>, ids: set<string>)
    requires (forall k :: k in keys <==> k in o) && LoadedSoFar(o, keys, out, ids)
    ensures RecordsParse(o) && out == ParsedRecords(o) && DistinctIds(ParsedRecords(o))
  {
    hide ParseRecord, HasId, DistinctIds;
    assert out == ParsedRecords(o);
  }

  // The whole of loading and saving

  method LoadStore(text: string) returns (s: Store)
    ensures s == Spec.LoadStore(text)
  {
    hide Parse, Print, Spec.ParseStore;
    var parser := new Parser(text);
    var v := parser.Run();
    if v.None? { return BAD_STORE; }
    var canonical := Printer.Canonical(v.value);
    if canonical != text { return BAD_STORE; }
    var loader := new Loader();
    var r := loader.ParseStore(v.value);
    if r.None? { return BAD_STORE; }
    return r.value;
  }

  method DefaultsObject(d: map<Capability, CapState>) returns (v: Json)
    ensures v == DefaultsJson(d)
  {
    var order := [Geolocation, Camera, Microphone, Notifications];
    var o: map<string, Json> := map[];
    for i := 0 to 4
      invariant forall k :: k in o <==> exists j :: 0 <= j < i && order[j] in d && k == CapabilityName(order[j])
      invariant forall j | 0 <= j < i && order[j] in d :: o[CapabilityName(order[j])] == Str(CapStateName(d[order[j]]))
    {
      hide CapabilityName, CapStateName;
      var c := order[i];
      forall j | 0 <= j < i ensures CapabilityName(order[j]) != CapabilityName(c) {
        NamesRoundTrip(Deny, c, Once, "");
        NamesRoundTrip(Deny, order[j], Once, "");
      }
      if c in d { o := o[CapabilityName(c) := Str(CapStateName(d[c]))]; }
    }
    v := Obj(o);
    hide CapStateName;
    forall k: string ensures (k in o <==> k in DefaultsJson(d).fields) && (k in o ==> o[k] == DefaultsJson(d).fields[k]) {
      DefaultNamed(d, k);
      if k in o { var j :| 0 <= j < 4 && order[j] in d && k == CapabilityName(order[j]); NamesRoundTrip(Deny, order[j], Once, ""); }
      if k in DefaultsJson(d).fields { InOrderOfEnum(order, ParseCapability(k).value); NamesRoundTrip(Deny, Camera, Once, k); }
    }
  }

  lemma DefaultNamed(d: map<Capability, CapState>, k: string)
    ensures DefaultsJson(d).Obj?
    ensures k in DefaultsJson(d).fields <==> ParseCapability(k).Some? && ParseCapability(k).value in d
    ensures k in DefaultsJson(d).fields ==> DefaultsJson(d).fields[k] == Str(CapStateName(d[ParseCapability(k).value]))
  {
    hide CapStateName;
  }

  lemma InOrderOfEnum(order: seq<Capability>, c: Capability)
    requires order == [Geolocation, Camera, Microphone, Notifications]
    ensures exists j :: 0 <= j < 4 && order[j] == c
  {
    match c
    case Geolocation => assert order[0] == c;
    case Camera => assert order[1] == c;
    case Microphone => assert order[2] == c;
    case Notifications => assert order[3] == c;
  }

  // Objects filled key by key

  ghost predicate Filled<T, U>(out: map<string, U>, done: seq<string>, src: map<string, T>, f: T -> U) {
    (forall k :: k in out <==> k in done) && forall k | k in out :: k in src && out[k] == f(src[k])
  }

  lemma FilledTurn<T, U>(out: map<string, U>, keys: seq<string>, n: nat, src: map<string, T>, f: T -> U)
    requires n < |keys| && keys[n] in src && Filled(out, keys[..n], src, f)
    ensures Filled(out[keys[n] := f(src[keys[n]])], keys[..n + 1], src, f)
  {
    assert keys[..n + 1] == keys[..n] + [keys[n]];
  }

  lemma FilledNone<T, U>(src: map<string, T>, f: T -> U)
    ensures Filled(map[], [], src, f)
  {
  }

  function StateJson(st: CapState): Json { Str(CapStateName(st)) }

  lemma ExtrasFilled(out: map<string, Json>, keys: seq<string>, x: map<string, CapState>)
    requires (forall k :: k in keys <==> k in x) && Filled(out, keys, x, StateJson)
    ensures Obj(out) == ExtrasJson(x)
  {
    hide CapStateName;
    assert out == ExtrasJson(x).fields;
  }

  lemma IdentitiesFilled(out: map<string, Json>, keys: seq<string>, ids: map<string, IdentityRecord>)
    requires (forall k :: k in keys <==> k in ids) && Filled(out, keys, ids, RecordJson)
    ensures Obj(out) == IdentitiesJson(ids)
  {
    hide RecordJson;
    assert out == IdentitiesJson(ids).fields;
  }

  method ExtrasObject(x: map<string, CapState>) returns (v: Json)
    ensures v == ExtrasJson(x)
  {
    hide *;
    var keys := KeysInOrder(x.Keys);
    var o: map<string, Json> := map[];
    FilledNone(x, StateJson);
    for n := 0 to |keys|
      invariant Filled(o, keys[..n], x, StateJson)
    {
      FilledTurn(o, keys, n, x, StateJson);
      o := o[keys[n] := StateJson(x[keys[n]])];
    }
    assert keys[..|keys|] == keys;
    ExtrasFilled(o, keys, x);
    v := Obj(o);
  }

  method GrantsArray(gs: seq<StoredGrant>) returns (v: Json)
    ensures v == Arr(GrantsJson(gs))
  {
    hide GrantJson, GrantsJson;
    var a: seq<Json> := [];
    for i := 0 to |gs|
      invariant |a| == i && forall j | 0 <= j < i :: a[j] == GrantJson(gs[j])
    {
      a := a + [GrantJson(gs[i])];
    }
    assert a == GrantsJson(gs);
    return Arr(a);
  }

  method RecordObject(r: IdentityRecord) returns (v: Json)
    ensures v == RecordJson(r)
  {
    hide DefaultsJson, ExtrasJson, GrantsJson;
    var defaults := DefaultsObject(r.defaults);
    var extras := ExtrasObject(r.extras);
    var grants := GrantsArray(r.grants);
    return Obj(map["denied" := Bool(r.denied), "defaults" := defaults, "extras" := extras, "grants" := grants]);
  }

  method SerializeStore(s: Store) returns (text: string)
    ensures text == Spec.SerializeStore(s)
  {
    hide Print, RecordJson, SortedKeys, Filled, IdentitiesJson;
    if s.corrupt {
      text := Printer.Canonical(CORRUPT_MARKER);
      return;
    }
    var ids := s.identities;
    var keys := KeysInOrder(ids.Keys);
    var o: map<string, Json> := map[];
    FilledNone(ids, RecordJson);
    for n := 0 to |keys|
      invariant Filled(o, keys[..n], ids, RecordJson)
    {
      var v := RecordObject(ids[keys[n]]);
      FilledTurn(o, keys, n, ids, RecordJson);
      o := o[keys[n] := v];
    }
    assert keys[..|keys|] == keys;
    IdentitiesFilled(o, keys, ids);
    text := Printer.Canonical(Obj(map["contract" := Str("permission-store"), "contract_version" := Int(1), "next_seq" := Int(Cast(s.nextSeq)),
                                      "identities" := Obj(o)]));
  }
}
