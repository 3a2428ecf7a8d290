# Verified cores of the browser policy stack

Models, in Dafny, of the deterministic cores of the repository and proofs of what they promise. The cores stack; later
modules use the laws of earlier ones.

- **Strict JSON** (`Utf8`, `JsonValue`, `JsonGrammar`, `JsonParse`, `JsonLexers`, `JsonLaws`, `JsonRoundTrip`): a recursive
  descent parser with a depth cap, UTF-8 checking and surrogate pairs, and a canonical ASCII printer with sorted keys. The
  parser is proved against concrete syntax trees of the RFC 8259 grammar, in both directions, and parser and printer
  against each other. `JsonParser` and `JsonPrinter` are the position-driven and buffer-driven forms.
- **Permission overlay** (`Permission*`, `Overlay*`): a store of defaults, deny-list flags and grants (once, session,
  seven days, tombstoned), seven operations with audit rows, a byte-exact codec, a projection that another module parses
  and applies, and a host that keeps store and clock in two files. The main theorems cross modules: what the resolver
  enforces after parsing the projected text is what the records call for (`ProjectionAgrees`); what sweeping, revoking,
  granting and spending do to every answer (`PermissionEffects`); what the audit rows add up to (`PermissionAudit`); and
  what survives interruptions between the two file writes (`PermissionHost`).
- **Policy** (`Policy*`): the schema of the effective policy, the resolver's tier selection and layers, full and diff
  snapshots under a size budget, what their integrity hash detects (`PolicyIntegrity`), the service and its consumer as a
  replica protocol, in order and over a channel that loses and reorders (`PolicyReplica`), and the generational cache.
- **Identity** (`Identity*`): opaque domains, the identity store, the least-recently-activated scheduler, the binding log
  and its compaction, the session text, and memory attribution.
- **Filters** (`Filter*`): the filter grammar and the greedy matcher, proved against a declarative meaning.

Each core that works step by step appears twice: as functions that say what a step does, and as methods or classes with
loops (`*Engine`, `*Loader`, the classes) proved to compute those functions. Laws and invariants are about the functions,
so they hold of both. What those functions compute is written out a second time, without them, on literal values: which
requests are refused and with which token, which fields change, which rows and which bytes are written (`JsonText`,
`Formats`, `PermissionMeaning`, `PermissionHostMeaning`, `ProjectionMeaning`, `OverlayMeaning`, `PolicyDecision`, `IdentityMeaning`,
`SessionText`, `AttributionMeaning`, `FilterMeaning`); `Selection` says by positions what it is to pick members of a list.

Conventions. A byte string is a Dafny string of characters below 256. `int64`, `uint64` and `size` are the source's
integer types; a cast or an addition that wraps is written out where it can (`PermissionStore.Cast`,
`IdentityAttribution.Plus`).
A double is the text that is written for it, and which lexemes are read as which doubles, or are out of range, is a constant
without a value (`JsonValue.READ_DOUBLE`), so that every statement holds whatever it is. `std::map` iteration order is
`Order.SortedKeys` or `Order.InOrder`. An early return with an error token is a value of a result datatype. The digest of
`StateHash` is a function parameter, of which only the shape of its results is used.

## Where the code falls short of what is said about it

Some promises hold only under a condition. The code is modelled as it is; the exact condition is a lemma, and where the
failure is surprising a concrete input is another.

- A JSON value survives printing and parsing if and only if its strings are UTF-8, it nests at most 64 deep and none of its
  doubles is written as an integer (`JsonRoundTrip.DoublesRoundTrip`): 1.0 is written "1" and comes back as an integer, and
  -0.0 is written "-0", comes back as 0 and is then written "0" (`WholeDoublesChange`).
- The store text loads back if and only if, besides being well-formed and UTF-8, its counter is below 2^63
  (`PermissionStore.StoreRoundTrip`): the counter is unsigned and the text signed.
- The high-water clock falls behind a committed operation exactly when the host stops between its two writes
  (`PermissionHost.ClockFallsBehind`); time can then go back for the next request (`TimeGoesBack`).
- The right-anchored matcher settles on the first start from which the last segment reaches the end, and with a single
  segment it does not look at the left anchor. When exactly that gives the wrong answer is stated for segments
  (`FilterMatcher.MatcherIff`) and for every accepted filter and URL (`FilterGrammar.FilterDecidesGlob`); `MissedPlacement`
  and `LeftAnchorIgnored` are instances.
- The refusal of an empty interior segment in the filter parser can never fire (`FilterGrammar.EmptySegmentUnreachable`).
- The service joins identity, site and trust with a separator that is not escaped. A recorded request can be overwritten by
  one with a different key exactly when its identity or its site holds the separator (`PolicyService.OverwrittenIff`), and by
  a valid one exactly when a separator has something on both sides of it (`ValidOverwrittenIff`).
- The hash of a snapshot detects a wrong base because different states have different texts. That holds for keys that are
  UTF-8 (`PolicyIntegrity.StateTextInjective`), as all keys are that come from the parser, and not for others
  (`InvalidBytesShareText`).
- The cap on active identities bounds the queue of the scheduler. The active records are within it exactly when the created
  ones that are not listed fit beside the listed ones (`IdentityScheduler.ActiveRecordsCount`; `CreationsIgnoreCap` is an
  instance of the opposite).
- A cache lookup is sound over every run exactly under the identity of its key (`PolicyCache.LookupSoundIff`). The queue of
  the cache is not bounded by the cap (`QueueOutgrowsCap`), and a key can be evicted before an older one (`EvictedEarly`).
- Cache keys leave out the request class, which decides autofill and nothing else; when exactly it matters is
  `PolicyResolve.ClassMattersIff`.
- The documented ladder "binding of the identity before site default" is not what the code does: it compares creation
  times first. It holds of a list exactly when no default of the site is younger than every binding of the identity
  (`PolicyResolve.LadderIff`; `YoungerDefaultWins` is a list on which it fails).
- Compaction of the binding log is documented as invisible to sessions. It is, exactly when no tab has a live, durable
  target behind a dead last one (`IdentitySession.CompactionKeepsSnapshot`), and only then does the session tell where every
  tab is (`SnapshotTellsLiveMap`); `MovedThenDestroyed` is an instance.
- Attribution is documented to refuse samples that exceed the total and to leave no rows. It does exactly when their 64-bit
  sum exceeds the total too (`IdentityAttribution.PromiseKeptIff`); otherwise it shows a table, which adds up
  (`WrappedMeasurementPasses`), or refuses with rows left (`RefusedWithRows`), and which of the two is `OutcomeExact`.

Nothing was executed: every statement rests on the verifier.

## Model

| member | source | states |
|---|---|---|
| `Utf8.DecodeIsRfc3629` | common/core/json_parse.cc:26-60 | the byte-driven decoder accepts at a position exactly the sequences of the ABNF in section 4 of RFC 3629, with the code point of section 3 |
| `Utf8.EncodeDecodes` | common/core/json_parse.cc:189-205 | a scalar value is written as the one well-formed sequence that decodes to it |
| `JsonLaws.ParserAcceptsTheGrammar` | common/core/json_parse.cc:66-310 | a text parses to a value if and only if some derivation of the RFC 8259 grammar renders to it and denotes that value; depth is at most 64, strings are UTF-8, a number is an int64 or in the range of a double, and the last of duplicate keys wins |
| `JsonLaws.ParsedIsDocument` | common/core/json_parse.cc:66-83 | every accepted text is white space, one derivation tree, white space |
| `JsonRoundTrip.AcceptedIsClean` | common/core/json_parse.cc:207-266 | an accepted text yields only well-formed UTF-8 strings and keys and nests at most 64 deep |
| `JsonRoundTrip.RoundTrip` | common/core/json.cc:69-202 | for every double-free value, parsing its canonical text gives it back if and only if its strings are UTF-8 and it nests at most 64 deep |
| `JsonRoundTrip.DoublesRoundTrip` | common/core/json.cc:162-202 | with doubles, a value comes back if and only if, besides, none of its doubles is written as an integer |
| `JsonRoundTrip.OutOfRangeIsRefused` | common/core/json_parse.cc:293-309 | a number is accepted if and only if it is an int64 or its double is in range |
| `JsonRoundTrip.PrintNormalizes` | common/core/json.cc:162-202 | printing what a text parsed to and parsing again gives the same value exactly when no double in it is written as an integer, and the same bytes again exactly when none is -0.0 |
| `JsonRoundTrip.DoubleFreeNormalizes` | common/core/json.cc:162-202 | without doubles there is no exception |
| `JsonRoundTrip.WholeDoublesChange` | common/core/json.cc:169-176 | 1.0 and -0.0, the two exceptions |
| `JsonRoundTrip.PrintInjective` | common/core/json.cc:162-202 | two values with the same canonical text are equal, but for doubles written as integers |
| `JsonRoundTrip.DigitsRoundTrip` | common/core/json.cc:162-202 | decimal digits denote the number they were made from, without leading zeros |
| `JsonText.LessIsByteOrder` | common/core/json.cc:188-200 | the order of keys is byte order: a proper prefix first, else the smaller byte at the first difference |
| `JsonText.ObjectText` | common/core/json.cc:188-200 | the text of an object is its members, a colon inside and commas between, for any list of its keys that is in byte order; there is only one such list |
| `JsonText.KeysStandInByteOrder` | common/core/json.cc:188-200 | for two keys of an object in byte order, the member of the first stands before the member of the second |
| `JsonText.CanonicalTextUnique` | common/core/json.cc:105-150 | the written form of a string is the only spelling of it by canonical pieces: two-character escapes for quote, backslash, \b, \f, \n, \r and \t, \u with four lower-case digits for the other control characters, for U+007F and for all that is not ASCII, as a surrogate pair above U+FFFF, and else the character itself |
| `JsonText.CanonicalTextExists` | common/core/json.cc:105-150 | every UTF-8 string has such a spelling |
| `JsonText.StrayByteText` | common/core/json.cc:136-147 | a byte that opens no well-formed sequence is written as \ufffd, and the next byte is looked at |
| `JsonText.DepthCap` | common/core/json_parse.cc:99-101 | arrays inside arrays are read to sixty-four levels below the outermost, and no deeper |
| `JsonText.SampleText` | common/core/json_parse.cc:66-310 | one concrete text with white space, an escaped slash and upper-case digits, and what it reads as |
| `JsonParser.Parser.Run` | common/core/json_parse.cc:66-83 | the position-driven parser computes the parse function: white space, one value, white space, end of text |
| `JsonParser.Parser.ParseValue` | common/core/json_parse.cc:99-124 | a value at the current position, with the depth cap; the position moves to the rest, or the parse fails |
| `JsonParser.Parser.ParseObject` | common/core/json_parse.cc:126-151 | an object: members up to the closing brace, later keys replacing earlier ones |
| `JsonParser.Parser.ParseArray` | common/core/json_parse.cc:153-171 | an array: items up to the closing bracket |
| `JsonParser.Parser.ParseHex4` | common/core/json_parse.cc:173-187 | four hexadecimal digits and their value |
| `JsonParser.Parser.ParseUnicode` | common/core/json_parse.cc:227-252 | a \u escape, joining a surrogate pair and refusing a lone half |
| `JsonParser.Parser.ParseString` | common/core/json_parse.cc:207-266 | a string literal: escapes decoded, raw bytes checked as UTF-8, control characters refused |
| `JsonParser.Parser.ParseNumber` | common/core/json_parse.cc:268-310 | a number literal without leading zeros: an int64 when it has no fraction or exponent and fits, else a double when in range, else a refusal |
| `JsonPrinter.Printer.AppendEscapedString` | common/core/json.cc:105-150 | the buffer grows by the ASCII-only escaped text of the string |
| `JsonPrinter.Printer.AppendCanonicalTo` | common/core/json.cc:162-202 | the buffer grows by the canonical text of the value, whose form is what ObjectText and CanonicalTextUnique say |
| `PermissionEngine.SetDefault` | permissions/core/ops.cc:65-87 | the whole outcome of setting a default: that default and nothing else of the store changes, and there is a row exactly when it did; well-formedness is kept |
| `PermissionEngine.SetDenied` | permissions/core/ops.cc:129-146 | the whole outcome of a deny-list change, with a row per capability |
| `PermissionEngine.IdTaken` | permissions/core/ops.cc:53-61 | whether any grant of any identity has the id |
| `PermissionEngine.FreshId` | permissions/core/ops.cc:117-120 | the do-while loop ends at the first free number at or after the counter |
| `PermissionEngine.GrantTemp` | permissions/core/ops.cc:89-127 | the whole outcome of a temporary grant: refusals, field rules per scope, fresh id, one row |
| `PermissionEngine.ConsumeOnce` | permissions/core/ops.cc:148-165 | the first live grant with the id, in key order, is spent if it is a once grant with a use left |
| `PermissionEngine.SweepRecord` | permissions/core/ops.cc:172-197 | one identity swept: what is kept, and a row for each grant that ended, by the rule that SweptGrants and SweptRows write out |
| `PermissionEngine.SweepExpired` | permissions/core/ops.cc:167-199 | the whole outcome of a sweep over all identities, which SweptGrants, SweptRows and SweepRefused write out |
| `PermissionEngine.RevokeSite` | permissions/core/ops.cc:201-222 | live grants on the domain become tombstones, each with a row |
| `PermissionEngine.RevokeAll` | permissions/core/ops.cc:224-248 | defaults are cleared first, then every live grant becomes a tombstone |
| `PermissionMeaning.NamesAre` | permissions/core/types.cc:1-60 | the names of capabilities, states and scopes, each for one value |
| `PermissionMeaning.DomainIs` | permissions/core/audit.cc:20-60 | a domain is accepted, unchanged, exactly when it is short enough and all of its labels are well-formed |
| `PermissionMeaning.SetDefaultMeans` | permissions/core/ops.cc:65-87 | which default is refused and with which token, in which order; else exactly that default changes, with a row whose every field is given when it was another |
| `PermissionMeaning.SetDeniedMeans` | permissions/core/ops.cc:129-146 | the flag is as asked, in both directions; four rows when it was not, with every field, and none when it was |
| `PermissionMeaning.GrantedIff` | permissions/core/ops.cc:89-116 | exactly which grant requests are accepted, on literal names |
| `PermissionMeaning.GrantTokens` | permissions/core/ops.cc:89-116 | the token of every other one, in the order in which the request is looked at |
| `PermissionMeaning.GrantTempMeans` | permissions/core/ops.cc:89-127 | every field of the new grant, its id, and every field of the one row, scope by scope |
| `PermissionMeaning.ConsumeOnceMeans` | permissions/core/ops.cc:148-165 | in a well-formed store the grant with the id is removed if it is a once grant with a use left, with one row, and the call is refused otherwise |
| `PermissionMeaning.SweptGrants` | permissions/core/ops.cc:167-199 | a grant survives a sweep if and only if it is a tombstone, a once grant with a use left, a seven-day grant that ends strictly later, or a grant of the given session; the order stays, and nothing else of the store changes |
| `PermissionMeaning.SweptRows` | permissions/core/ops.cc:167-199 | one expiry row for each grant that goes, identity after identity in byte order, grant after grant, with reason "used", "ttl" or "session_end" by scope and every other field given |
| `PermissionMeaning.SweepRefused` | permissions/core/ops.cc:167-171 | a corrupt store is not swept |
| `PermissionMeaning.RevokeSiteMeans` | permissions/core/ops.cc:201-222 | exactly the grants of that identity on that domain that are not tombstones become tombstones at that time, one row for each in order; the token of each refusal |
| `PermissionMeaning.RevokeAllMeans` | permissions/core/ops.cc:224-248 | the defaults go, all live grants of that identity become tombstones, and the rows are those of the defaults and then of the grants |
| `PermissionMeaning.ClockIsLater` | permissions/core/ops.cc:250-254 | an operation is evaluated at the later of the two times |
| `PermissionInvariants.NextFreeIsFree` | permissions/core/ops.cc:117-120 | the id chosen is free and every smaller candidate was taken |
| `PermissionInvariants.EveryOpKeeps` | permissions/core/ops.cc:65-248 | every operation keeps the store well-formed (unique ids, keys, per-scope fields, tombstone times); a refusal returns the input store and no rows |
| `PermissionInvariants.EveryOpUtf8` | permissions/core/ops.cc:65-248 | every operation keeps all strings of the store UTF-8 when its own arguments are |
| `PermissionInvariants.EveryOpKeepsTombstones` | permissions/core/ops.cc:148-248 | a tombstone is never revived, altered or removed |
| `PermissionInvariants.MintedStep` | permissions/core/ops.cc:117-120 | when all ids came from the counter the loop never skips: the id is the counter and the counter moves by one |
| `PermissionInvariants.NeverReissued` | permissions/core/ops.cc:117-120 | in every run from the empty store no id is issued twice, even after its grant is gone |
| `PermissionInvariants.RunOk` | permissions/core/ops.cc:65-248 | well-formedness over every run; the counter never goes back |
| `PermissionAudit.EveryOpAccounts` | permissions/core/ops.cc:89-127 | the rows of one operation turn the multiset of live grants before it into the one after it, never removing what is not there |
| `PermissionAudit.RunAccounts` | permissions/core/ops.cc:148-248 | the same over every run and for every identity |
| `PermissionAudit.LogRebuilds` | permissions/core/ops.cc:65-248 | replaying the rows of a run from the empty store rebuilds the live grants |
| `PermissionStore.StoreRoundTrip` | permissions/core/store.cc:179-221 | loading the serialisation of a store gives that store if and only if it is well-formed, UTF-8 and its counter fits int64 |
| `PermissionStore.LoadedIsCanonical` | permissions/core/store.cc:179-188 | a text that loads as non-corrupt re-serialises to the same bytes and is well-formed |
| `PermissionStore.CorruptStaysCorrupt` | permissions/core/store.cc:190-195 | the text of a corrupt store loads as corrupt |
| `Formats.LoadedExactly` | permissions/core/store.cc:58-188 | a text loads as a given store if and only if it is the text of that store and the store keeps the schema, written out on literal values: fields per scope, a lifetime of 604800000 milliseconds, the four extra names, ids that differ |
| `Formats.StoreText` | permissions/core/store.cc:190-221 | the text of a store: four names in order, contract and version literal |
| `Formats.CorruptText` | permissions/core/store.cc:190-195 | the text of a corrupt store: the marker, whatever else the store holds |
| `Formats.RecordText` | permissions/core/store.cc:196-217 | the text of a record |
| `Formats.GrantText` | permissions/core/store.cc:161-177 | the text of a grant: eleven names in byte order, each with the text of its value |
| `Formats.DefaultsWritten` | permissions/core/store.cc:198-207 | each default stands under the name of its capability, with the name of its state |
| `PermissionLoader.HasKeysExactly` | permissions/core/store.cc:25-33 | same size and every expected key present is exactly equality of the key sets |
| `PermissionLoader.Loader.ParseGrant` | permissions/core/store.cc:58-98 | a grant is accepted if it has the schema and its scope rules and its id has not been met; the id joins the shared set |
| `PermissionLoader.Loader.ParseIdentity` | permissions/core/store.cc:100-136 | a record is accepted if it has the schema and none of its grant ids repeats or was met before |
| `PermissionLoader.Loader.ParseRecords` | permissions/core/store.cc:150-156 | the loop over identities accepts exactly the objects whose records all parse and whose grant ids are distinct across all of them |
| `PermissionLoader.Loader.ParseStore` | permissions/core/store.cc:138-159 | the whole document |
| `PermissionLoader.LoadStore` | permissions/core/store.cc:179-188 | parse, compare with the canonical text, check the schema; anything else is corrupt |
| `PermissionLoader.SerializeStore` | permissions/core/store.cc:190-221 | the canonical text of the store, or the corrupt marker |
| `OverlayEngine.ProjectViewJson` | permissions/core/store.cc:223-263 | the projection text: deny-listed identities, defaults, and the grants that are neither tombstoned nor spent |
| `OverlayEngine.ParsePermissionOverlay` | policy/core/resolve_io.cc:250-296 | the strict overlay parser, entry by entry, refusing a duplicate default as soon as it is met |
| `OverlayEngine.ParseDefaultsList` | policy/core/resolve_io.cc:274-284 | the list of defaults parses if every entry does and no identity and capability repeat |
| `OverlayEngine.ApplyPermissionOverlay` | policy/core/resolve.cc:104-142 | absent is inert, corrupt and deny-listed are final, then defaults, then active grants |
| `PermissionOverlay.DefaultsMeaning` | policy/core/resolve.cc:115-134 | the defaults loop gives each capability the most restrictive of its defaults, in any order |
| `PermissionOverlay.GrantsMeaning` | policy/core/resolve.cc:135-141 | the grants loop allows a capability exactly when some active grant for the identity and domain covers it |
| `OverlayMeaning.OverlayExact` | policy/core/resolve_io.cc:197-296 | a document is read as a given overlay if and only if it has the shape written out: allowed names, version 1, lists whose every entry has the fields of its scope and no other, no two defaults for one identity and capability |
| `OverlayMeaning.MalformedDenies` | policy/core/resolve_io.cc:394-404 | no overlay is inert, a well-formed one is what it reads as, and any other denies all |
| `OverlayMeaning.OverlayDecides` | policy/core/resolve.cc:104-142 | each permission after the overlay as one case theorem: denied when corrupt or deny-listed, else allowed by an active grant for identity, domain and name, else the strictest default, else as it was; no other field changes |
| `ProjectionMeaning.ProjectedIs` | permissions/core/store.cc:223-263 | the projected view by positions: the deny-listed identities, for each identity the defaults that are set, in the order of the four capabilities, and its grants that are neither tombstones nor spent, each with the one field of its scope |
| `PermissionProjection.ProjectionAccepted` | permissions/core/store.cc:223-263 | every well-formed store projects to a document that the strict overlay parser accepts as the same view |
| `PermissionProjection.ProjectionTextReads` | policy/core/resolve_io.cc:394-404 | the projected text, parsed as the overlay of a request, is the projected view |
| `PermissionProjection.ProjectionAgrees` | policy/core/resolve.cc:104-142 | the agreement of the two modules: through the text, the resolver enforces for every request exactly what the records of the store call for, field by field, and changes nothing else |
| `PermissionEffects.SweepInvisible` | permissions/core/ops.cc:167-199 | a sweep at t changes no answer for requests of that session at t or later |
| `PermissionEffects.SweepAbsorbs` | permissions/core/ops.cc:167-199 | a sweep followed by a later one leaves the store of the later one alone |
| `PermissionEffects.RevocationIsFinal` | permissions/core/ops.cc:201-222 | after RevokeSite and any run that does not grant there again, the site is answered as if the identity held no grants, at any time and in any session |
| `PermissionEffects.RevokeAllResets` | permissions/core/ops.cc:224-248 | after RevokeAll the identity gets the base policy, or all-deny if deny-listed |
| `PermissionEffects.DenyListIsFinal` | permissions/core/ops.cc:129-146 | a deny-listed identity is denied all four permissions whatever it holds |
| `PermissionEffects.DefaultTakesEffect` | permissions/core/ops.cc:65-87 | a default decides exactly where neither the deny-list nor a live grant does, and touches no other capability |
| `PermissionEffects.GrantTakesEffect` | permissions/core/ops.cc:89-127 | a grant allows exactly what its scope covers, up to but not at its expiry |
| `PermissionEffects.NonInterference` | permissions/core/ops.cc:65-248 | an operation about one identity never changes the answer of another |
| `PermissionEffects.CorruptDeniesAll` | permissions/core/store.cc:223-229 | a corrupt store denies all four permissions to every request |
| `PermissionEffects.SpentOnce` | permissions/core/ops.cc:148-165 | a once grant is spent at most once: its id is gone and a second attempt is refused |
| `PermissionHost.ClockRoundTrip` | permissions/host/permissions_host.cc:244-253 | the clock file reads exactly when it is the canonical text of a non-negative time |
| `PermissionHost.StepCommits` | permissions/host/permissions_host.cc:219-293 | one request, interrupted anywhere: the disk stays good, the store moves by the committed operation or not at all, the clock never goes back |
| `PermissionHost.CrashSafety` | permissions/host/permissions_host.cc:219-293 | over every run with arbitrary clocks and interruptions the store on disk is the fold of the committed operations |
| `PermissionHost.CrashSafetyFromNothing` | permissions/host/permissions_host.cc:219-293 | from an empty disk the same holds outright for fewer than 2^63 - 1 requests |
| `PermissionHost.CorruptForever` | permissions/host/permissions_host.cc:244-258 | a corrupt store or clock file is never rewritten |
| `PermissionHost.TimeHolds` | permissions/host/permissions_host.cc:265-283 | after a completed request no later operation is evaluated at an earlier time |
| `PermissionHost.ClockFallsBehind` | permissions/host/permissions_host.cc:270-283 | the clock on disk falls behind a committed operation if and only if time has moved and the request has exactly the writes left that its store needs, one or none |
| `PermissionHost.TimeGoesBack` | permissions/host/permissions_host.cc:262-283 | an instance: a request stopped there, and the next one evaluated at any earlier time |
| `PermissionHost.DisposableIsFreshHost` | permissions/host/permissions_host.cc:226-262 | disposable mode answers as a host that finds the given store and no clock on its disk |
| `PermissionHostEngine.CheckArgs` | permissions/host/permissions_host.cc:162-186 | arguments are accepted if all are known, the required ones are there and each has its type; a store, as text, is taken in disposable mode only |
| `PermissionHostEngine.ParseMillis` | permissions/host/permissions_host.cc:295-304 | a decimal of one to eighteen digits, accumulated, is its value |
| `PermissionHostEngine.Host.ReadHighWater` | permissions/host/permissions_host.cc:239-255 | no clock file is time zero; a present one must be canonical |
| `PermissionHostEngine.Host.Run` | permissions/host/permissions_host.cc:219-293 | the reply and the two files after one request, in both modes, for any point at which reads or writes fail or the process dies; HostServes and DisposableServes say which operation that is |
| `PermissionHostMeaning.RequestsAre` | permissions/host/permissions_host.cc:126-217 | for each of the seven method names: a request asks for an operation if and only if its arguments are in order, and for that operation on the values of the named arguments, with "" for a missing session |
| `PermissionHostMeaning.ArgsAre` | permissions/host/permissions_host.cc:162-186 | which arguments are in order |
| `PermissionHostMeaning.HostServes` | permissions/host/permissions_host.cc:219-293 | on any disk whose clock reads, such a request stores and answers the outcome of that operation at the later of the two times |
| `PermissionHostMeaning.HostRefuses` | permissions/host/permissions_host.cc:219-243 | the seven methods and the view are known and nothing else; a known one with other arguments is malformed; neither touches the disk |
| `PermissionHostMeaning.HostShows` | permissions/host/permissions_host.cc:256-262 | the view is what the projected text reads as, and changes nothing |
| `PermissionHostMeaning.DisposableServes` | permissions/host/permissions_host.cc:226-262 | a request that comes with its store is served the same way on that store |
| `PolicyCodec.PolicyRoundTrip` | policy/core/effective_policy.cc:84-252 | a policy comes back from its document if and only if it is version 1 and does not allow export; otherwise the document is refused |
| `PolicyCodec.PolicyIsCanonical` | policy/core/effective_policy.cc:170-252 | a document that reads as a policy is the document of that policy |
| `PolicyCodec.ToJsonInjective` | policy/core/effective_policy.cc:84-168 | different policies have different documents, even those that the schema does not admit |
| `Formats.PolicyWords` | policy/core/effective_policy.cc:84-168 | each enumerated field stands in its group under its name, by its literal word |
| `Formats.PolicyPermissions` | policy/core/effective_policy.cc:84-168 | and so do the four permissions |
| `Formats.PolicyFlags` | policy/core/effective_policy.cc:84-168 | the flags of blocking and of cosmetics |
| `Formats.PolicyGuards` | policy/core/effective_policy.cc:84-168 | the flags of vault and processes, and the letterbox |
| `PolicyResolve.ExceptionIsBest` | policy/core/resolve.cc:198-203 | the winning exception is one that counts and none that counts is preferred to it; there is none only if none counts |
| `PolicyResolve.BindingIsBest` | policy/core/resolve.cc:204-210 | the same for bindings |
| `PolicyResolve.WinnerIgnoresOrder` | policy/core/resolve.cc:158-169 | with one entry per creation time and id the winner does not depend on the order of the list |
| `PolicyResolve.BindingIgnoresOrder` | policy/core/resolve.cc:158-169 | nor does the winning binding, with one per creation time and identity at the site |
| `PolicyResolve.IdentityWinsUnlessOlder` | policy/core/resolve.cc:161-169 | a binding of the identity wins if and only if there is one than which no default of the site is younger |
| `PolicyResolve.LadderIff` | policy/core/resolve.cc:161-169 | the documented ladder (a binding of the identity, where there is one, beats the site default) holds of a list if and only if no default of the site is younger than every binding of the identity |
| `PolicyResolve.YoungerDefaultWins` | policy/core/resolve.cc:161-169 | a list on which it fails |
| `PolicyResolve.OverlayKeepsRest` | policy/core/resolve.cc:104-142 | the overlay changes nothing but the four permissions |
| `PolicyResolve.ResolvedIsWire` | policy/core/resolve.cc:173-261 | every answer is version 1 without export, so the wire format can carry it |
| `PolicyResolve.TiersAreALadder` | policy/core/resolve.cc:30-63 | a higher tier is at least as strict in every field |
| `PolicyResolve.RaisingFloorTightens` | policy/core/resolve.cc:219-222 | raising the enterprise floor, or adding a layer with nothing but a floor, makes no answer laxer in any field, the overlay included |
| `PolicyResolve.ClassDecidesAutofillOnly` | policy/core/resolve.cc:30-63 | requests that differ only in their class get policies that differ at most in autofill |
| `PolicyResolve.ClassMattersIff` | policy/core/resolve.cc:30-63 | they get the same policy if and only if the classes agree on autofill, an extension is present, or the request is not decided at all |
| `PolicyResolve.ScanExceptions` | policy/core/resolve.cc:198-203 | the exception scan with an updated winner |
| `PolicyResolve.ScanBindings` | policy/core/resolve.cc:204-210 | the binding scan with an updated winner |
| `PolicyResolve.ResolveOne` | policy/core/resolve.cc:173-261 | the whole resolution of a parsed request, which DecisionIs and UndecidedIs write out |
| `PolicyDecision.SelectedIs` | policy/core/resolve.cc:191-214 | the tier that is selected satisfies the cases: an explicit trust; else the trust of an exception for site and identity that is in force and to which none in force is preferred; else that of such a binding; else standard. In force is written out per scope |
| `PolicyDecision.SelectedOnce` | policy/core/resolve.cc:145-171 | and no other tier satisfies them |
| `PolicyDecision.DecisionIs` | policy/core/resolve.cc:30-261 | the answer to a decided request: the selected tier, raised by floor and forces, with every field of the policy written out per tier and by the flags of the identity and the extension, and then the overlay |
| `PolicyDecision.UndecidedIs` | policy/core/resolve.cc:173-190 | a request that is not decided gets the policy that denies, and an error only for its version |
| `PolicySnapshot.SortIsListing` | policy/core/snapshot.cc:36-39 | entries with distinct keys, sorted, are the listing of their map in key order |
| `Formats.SortedExactly` | policy/core/snapshot.cc:36-39 | for entries with distinct keys, sorted means the same entries with identity, then site, then trust ascending in byte order, and nothing else does |
| `Formats.BudgetIs` | policy/core/snapshot.cc:79-100 | a blob of either kind is its text if that has at most 32768 bytes, and refused otherwise |
| `PolicySnapshotLaws.FullReconstructs` | policy/core/snapshot.cc:104-109 | a full blob decodes to the sorted entries if and only if every entry is admitted by the wire format and the sequence number fits int64; every blob is at most 32768 bytes |
| `PolicySnapshotLaws.DecodedIsOk` | policy/core/snapshot.cc:207-247 | whatever a full blob decodes to is sorted and made of admitted entries |
| `PolicySnapshotLaws.DeltaIsExact` | policy/core/snapshot.cc:111-143 | added, changed and removed are exact, and no key is in two of them |
| `PolicySnapshotLaws.DiffReconstructs` | policy/core/snapshot.cc:249-325 | a diff applied to its base gives the sorted new state and a matching hash if and only if what changed is admitted by the wire format and the numbers fit int64 |
| `PolicySnapshotLaws.OrderIsIrrelevant` | policy/core/snapshot.cc:270-271 | the base can be given in any order |
| `PolicyIntegrity.StateTextInjective` | policy/core/snapshot.cc:43-57 | of states with UTF-8 keys only equal ones have the same hashed text |
| `PolicyIntegrity.AcceptedIsIntended` | policy/core/snapshot.cc:207-325 | for any text that names the hash of a state, and any base: what a decoder accepts is that state, or another with the same hash |
| `PolicyIntegrity.DiffOnAnyBase` | policy/core/snapshot.cc:249-325 | a diff gives the new state exactly on the bases that agree with its own wherever it says nothing; on any other it is refused for its hash, or the result collides with the new state |
| `PolicyIntegrity.InvalidBytesShareText` | policy/core/snapshot.cc:43-57 | without UTF-8 keys two different states can share their hashed text |
| `PolicySnapshotEngine.EntriesHash` | policy/core/snapshot.cc:43-57 | the hash of the canonical text of the sorted entries |
| `PolicySnapshotEngine.FinishBlob` | policy/core/snapshot.cc:79-100 | the envelope around a payload, or nothing when it exceeds the budget |
| `PolicySnapshotEngine.EncodeFullSnapshot` | policy/core/snapshot.cc:104-109 | the full encoding |
| `PolicySnapshotEngine.EncodeDiffSnapshot` | policy/core/snapshot.cc:111-144 | the diff encoding, from maps of base and new entries |
| `PolicySnapshotEngine.DecodeFullSnapshot` | policy/core/snapshot.cc:207-247 | the strict full decoder with its error kinds |
| `PolicySnapshotEngine.ApplyDiffSnapshot` | policy/core/snapshot.cc:249-325 | the strict diff decoder: three lists applied to the base in order |
| `PolicyService.EmissionAgrees` | policy/core/service.cc:168-192 | after one emitted blob the consumer holds the sorted state of the service, under its strictly greater sequence number |
| `PolicyService.ReplicaAgrees` | policy/core/service.cc:139-192 | over every interleaving of resolutions and snapshots, including budget failures, the consumer holds the state of the service at its last emission |
| `PolicyReplica.DeliveryExact` | policy/core/snapshot.cc:207-325 | one blob of a run delivered to any consumer: a full one is always taken, a diff exactly by consumers that agree with its base wherever it says nothing |
| `PolicyReplica.LossyReplica` | policy/core/service.cc:138-192 | over every run and any loss, repetition and order of its blobs, the consumer holds in full the state of the service at the last blob taken |
| `PolicyService.ResolvedEntryOk` | policy/core/service.cc:138-151 | what a resolution leaves in the state can always be put on the wire |
| `PolicyService.JoinedKeysCollideIff` | policy/core/service.cc:14-16 | another key shares the joined key of this one if and only if this one holds the separator in some part |
| `PolicyService.OverwrittenIff` | policy/core/service.cc:138-151 | a recorded request can be overwritten by another request from the wire with a different key if and only if its identity or its site holds the separator |
| `PolicyService.ValidOverwrittenIff` | policy/core/service.cc:138-151 | among valid requests it takes a separator with something on both sides of it |
| `PolicyService.ValidRequestsCollide` | policy/core/service.cc:138-151 | two valid requests for different identities and sites, the second of which takes the place of the first in any service |
| `PolicyService.Resolver.Record` | policy/core/service.cc:138-151 | a resolution replaces the entry under its joined key, leaves every other place alone, and keeps service and consumer in step |
| `PolicyService.Resolver.SnapshotFull` | policy/core/service.cc:168-179 | the next sequence number, a full blob, what is remembered of it, and a consumer that holds the whole state once it has applied the blob |
| `PolicyService.Resolver.SnapshotDiff` | policy/core/service.cc:181-192 | the same with a diff against what was remembered |
| `PolicyCache.EvictTakesPrefix` | policy/core/cache.cc:23-32 | eviction takes a prefix of the queue, no longer than it takes to make room |
| `PolicyCache.EvictMakesRoom` | policy/core/cache.cc:23-32 | the eviction loop always makes room, because every mapped key is queued |
| `PolicyCache.RunRefines` | policy/core/cache.cc:12-89 | over every run the current slots are the last puts since the last invalidation, and there are at most cap of them |
| `PolicyCache.HitIsLastPut` | policy/core/cache.cc:41-65 | a hit under the key's own identity is the last policy put for it with no invalidation since |
| `PolicyCache.PutThenHit` | policy/core/cache.cc:12-39 | what is put can be read at once |
| `PolicyCache.VersionHolds` | policy/core/cache.cc:67-89 | a version stays current exactly until the next invalidation of everything or of that identity |
| `PolicyCache.LookupSoundIff` | policy/core/cache.cc:41-65 | over all caps and runs, every hit of a lookup is the last policy put with no invalidation since, if and only if the lookup is under the identity of the key |
| `PolicyCache.ForeignLookupIsUnchecked` | policy/core/cache.cc:41-65 | for every key and every other identity, a run after which an invalidated entry still hits |
| `PolicyCache.TidyUntilStale` | policy/core/cache.cc:54-59 | the queue lists the mapped keys, each once, until exactly a lookup drops a stale entry |
| `PolicyCache.QueueOutgrowsCap` | policy/core/cache.cc:23-38 | the cap bounds the map only: over an empty map the queue can reach any length |
| `PolicyCache.EvictedEarly` | policy/core/cache.cc:23-38 | a key put again after it was dropped can be evicted before a key put earlier |
| `PolicyCache.PolicyCacheObject.Insert` | policy/core/cache.cc:12-39 | replace in place, or make room and queue; the policy can be read at once, no version moves, and the map is within the cap |
| `PolicyCache.PolicyCacheObject.Find` | policy/core/cache.cc:41-65 | under the own identity of the key only the last policy put, with no invalidation since, is ever returned, under the current version; a miss leaves no entry |
| `PolicyCache.PolicyCacheObject.DropAll` | policy/core/cache.cc:79-83 | no key hits under its own identity any more, and every current version is stale |
| `PolicyCache.PolicyCacheObject.DropIdentity` | policy/core/cache.cc:85-89 | exactly the keys and versions of that identity are affected |
| `PolicyCache.PolicyCacheObject.VersionIsCurrent` | policy/core/cache.cc:67-77 | whether a version is the current one of an identity |
| `IdentityModel.MintedShapeOk` | identity/core/mint.cc:22-34 | a formatted UUID is 39 characters and has the shape of a domain, whatever its bytes |
| `IdentityModel.FormatUuid` | identity/core/mint.cc:22-34 | the text is written byte by byte with dashes after the fourth, sixth, eighth and tenth |
| `IdentityMeaning.MintedText` | identity/core/mint.cc:22-34 | every character of a minted domain: its dashes, and the digits of each byte, high half first, with version and variant |
| `IdentityMeaning.OpaqueExactly` | identity/core/mint.cc:101-145 | a domain is admitted under a display name if and only if it has the shape and the name is blank, or has fewer than eight characters that are all hexadecimal or a dash, or is not embedded in it whatever the case |
| `IdentityModel.InsertKeepsShape` | identity/core/identity.cc:32-47 | only opaque, new domains are inserted, so every key keeps the shape |
| `IdentityMeaning.CallsMean` | identity/core/identity.cc:32-190 | the answer of each call of the store and the one record it changes |
| `IdentityModel.DestroyVerifies` | identity/core/identity.cc:163-190 | the record always goes; success means that no blob with a byte in it lies about under the domain |
| `IdentityModel.NoCacheIsRest` | identity/core/identity.cc:150-156 | what hibernation leaves are the blobs of every kind but "cache", in their order |
| `IdentityModel.DiscardKeeps` | identity/core/identity.cc:150-156 | no blob of that kind is left, and every other as often and in the order as before |
| `IdentityModel.BytesAdd` | identity/core/identity.cc:67-77 | the bytes of a list are the sum of those of its blobs |
| `IdentityModel.Manager.Add` | identity/core/identity.cc:32-47 | the insert, with its two refusals |
| `IdentityModel.Manager.Activate` | identity/core/identity.cc:135-143 | only the state of a known record can change; keys, preferences and bytes stay |
| `IdentityModel.Manager.Hibernate` | identity/core/identity.cc:145-161 | the blobs of kind "cache" go, every other stays in its order, and no other record changes |
| `IdentityModel.Manager.CountResidual` | identity/core/identity.cc:67-77 | the bytes of the surface and of what lies outside it |
| `IdentityModel.Manager.Destroy` | identity/core/identity.cc:163-190 | purge, then count what is left |
| `IdentityScheduler.EvictTakesOldest` | identity/core/hibernate.cc:14-24 | evicting down takes exactly the oldest members that do not fit, hibernates those that are active, and changes no other record |
| `IdentityScheduler.EvictionsAreRecorded` | identity/core/hibernate.cc:14-24 | what the cap puts to sleep is on record, and nothing else is |
| `IdentityScheduler.ActivateQueue` | identity/core/hibernate.cc:34-53 | the activated domain moves to the back and is active; only the oldest beyond the cap sleep |
| `IdentityMeaning.ActivationMeans` | identity/core/hibernate.cc:34-53 | the queue after an activation, by positions, and the rows of the history: one for each member put to sleep, in the order of the queue, with the cap as reason |
| `IdentityMeaning.HibernateMeans` | identity/core/hibernate.cc:55-66 | both refusals, and else the record, the queue and the one row of an explicit hibernation |
| `IdentityMeaning.WakeMeans` | identity/core/hibernate.cc:68-88 | what waking does in each state of the record |
| `IdentityScheduler.RunKeepsQueue` | identity/core/hibernate.cc:14-88 | over every run the queue is within its cap, without duplicates, and lists only active identities of the store |
| `IdentityScheduler.ActiveRecordsCount` | identity/core/hibernate.cc:34-53 | over every run the active records are the listed ones that are still there and the unlisted creations, so that they are within the cap if and only if the unlisted creations fit beside the listed ones |
| `IdentityScheduler.CreationsIgnoreCap` | identity/core/identity.cc:32-47 | two creations under a cap of one |
| `IdentityScheduler.QueueIsByActivation` | identity/core/hibernate.cc:34-53 | over every run the queue is in the order of last activation |
| `IdentityScheduler.RunKeepsRecord` | identity/core/hibernate.cc:14-88 | any number of evictions and wakes leaves prefs and, of the surface of a live identity, every blob of another kind than "cache" as often and in the order as before |
| `IdentityScheduler.NoResurrection` | identity/core/hibernate.cc:68-88 | a missing identity is never brought back by anything but its creation; waking it is refused |
| `IdentityScheduler.RunKeepsShape` | identity/core/identity.cc:32-47 | over every run every key of the store is a domain |
| `IdentityScheduler.Scheduler.MakeRoom` | identity/core/hibernate.cc:44-46 | the eviction loop ends, with room for one more |
| `IdentityScheduler.Scheduler.ActivateIdentity` | identity/core/hibernate.cc:34-53 | the whole effect of an activation on store, queue and history |
| `IdentityScheduler.Scheduler.HibernateIdentity` | identity/core/hibernate.cc:55-66 | the whole effect of an explicit hibernation |
| `IdentityScheduler.Scheduler.WakeIdentity` | identity/core/hibernate.cc:68-88 | refused when gone, idempotent when awake, an activation otherwise |
| `IdentityScheduler.Scheduler.CompactEvictions` | identity/core/hibernate.cc:26-32 | the most recent events are kept and nothing else changes |
| `IdentityBinding.LogAlwaysAgrees` | identity/core/binding.cc:26-130 | over every run a tab's identity is the target of its last row, and no row has the suggestion cause |
| `IdentityBinding.LatestIsLast` | identity/core/binding.cc:93-94 | the fold over the log gives each tab its last row |
| `IdentityBinding.CompactionKeepsLatest` | identity/core/binding.cc:87-104 | compaction leaves one row per tab, ascending, and every tab its last row |
| `IdentityBinding.CompactionIsInvisible` | identity/core/manager_page.cc:92-98 | compaction changes neither the identities of tabs nor any tab count |
| `IdentityBinding.BindingModel.ChangeTabIdentity` | identity/core/binding.cc:113-130 | the only mutation of a tab: refused exactly for the suggestion cause; map and log stay in agreement, and the row names where the tab came from |
| `IdentityBinding.BindingModel.SetWindow` | identity/core/binding.cc:14-24 | no tab and no other window changes; a tab then opened there without an opener gets the default |
| `IdentityBinding.BindingModel.Open` | identity/core/binding.cc:26-36 | fails only for want of an opener and of a default; one tab, one row, map and log in agreement |
| `IdentityBinding.BindingModel.Move` | identity/core/binding.cc:38-65 | refusals in order: navigated, not there, not a domain, split group |
| `IdentityBinding.BindingModel.Suggest` | identity/core/binding.cc:71-78 | a suggestion is remembered and binds nothing: tabs, windows, log and tab counts stay |
| `IdentityBinding.BindingModel.Compact` | identity/core/binding.cc:87-104 | the compacted log, the recent suggestions and the number of rows dropped |
| `IdentitySession.SessionRoundTrip` | identity/core/session.cc:22-140 | restoring the text of a snapshot in the same store gives exactly the snapshot, for every store admitted by Insert and every binding history |
| `IdentitySession.LifecycleRoundTrip` | identity/core/session.cc:22-140 | the same over any run of creations, activations, hibernations, wakes and destructions |
| `IdentitySession.RestoreNeverBleeds` | identity/core/session.cc:115-136 | whatever the text, a restore binds tabs only to live identities that are not in-memory |
| `IdentitySession.DocumentReads` | identity/core/session.cc:69-140 | any document in serial order without separators in its fields comes back, if its tabs are durable, and is refused if not |
| `SessionText.RestoreExact` | identity/core/session.cc:69-140 | a text restores to a given document if and only if it is a version, rows and names with their separators as written out, and all tabs are in identities that are live and not in-memory |
| `SessionText.NumberIs` | identity/core/session.cc:86-105 | which texts the number conversion reads and as which number: blanks, a sign, digits below 2^64, anything behind them |
| `SessionText.SessionLists` | identity/core/session.cc:39-67 | a tab is listed if and only if the last of its rows that names an identity still there names one that is not in-memory, and under that one |
| `SessionText.SessionOrders` | identity/core/session.cc:16-37 | tabs ascend by number, and the names are those of the tabs, each once, in byte order |
| `IdentitySession.CompactionKeepsSnapshot` | identity/core/session.cc:39-67 | compaction keeps the session document if and only if no tab has a live, durable target behind a dead last one |
| `IdentitySession.SnapshotTellsLiveMap` | identity/core/session.cc:39-67 | the session gives every tab it keeps the identity the tab has, over every history, under exactly the same condition |
| `IdentitySession.MovedThenDestroyed` | identity/core/session.cc:39-67 | an instance for any two identities: a tab moved from one to the other, which is then destroyed, is still listed under the first, and not after compaction |
| `IdentitySession.SomeLife` | identity/core/mint.cc:22-34 | two such identities, minted from two different digests |
| `IdentitySessionEngine.SessionSnapshot` | identity/core/session.cc:39-67 | the tabs to keep, the tabs dropped, and the durable domains |
| `IdentitySessionEngine.SerializeSession` | identity/core/session.cc:22-37 | the wire text, row by row |
| `IdentitySessionEngine.ReadTabs` | identity/core/session.cc:86-105 | the tab rows by position; an unreadable number throws |
| `IdentitySessionEngine.RestoreSession` | identity/core/session.cc:69-140 | the document, a refusal, or an exception from the number conversion |
| `IdentityAttribution.RowsMean` | identity/core/attribution.cc:26-52 | each row is the sum of even shares of the processes that serve the identity, and counts them |
| `AttributionMeaning.TableIs` | identity/core/attribution.cc:14-64 | exactly which rows are left: one for each identity that some process serves, and one for the memory of the processes that serve nobody and for what no sample explains |
| `IdentityAttribution.SplitIsFullAndEven` | identity/core/attribution.cc:41-50 | a shared process is split fully, with parts that differ by at most one kilobyte |
| `IdentityAttribution.ShownTablesAddUp` | identity/core/attribution.cc:14-64 | whenever a table is shown its rows sum to the measured total, biggest first, even if sizes wrapped |
| `IdentityAttribution.TableIffItFits` | identity/core/attribution.cc:53-63 | while sizes do not wrap there is a table exactly when the samples fit the total, and a refusal leaves no rows |
| `IdentityAttribution.OutcomeExact` | identity/core/attribution.cc:53-63 | whatever wraps, rows are left if and only if the 64-bit sum of the samples is within the total, and shown if and only if the 64-bit bills of the identities sum to at most the total as well |
| `IdentityAttribution.PromiseKeptIff` | identity/core/attribution.cc:53-55 | that samples over the total are refused without rows holds if and only if they are not over it or their 64-bit sum is too |
| `IdentityAttribution.WrappedMeasurementPasses` | identity/core/attribution.cc:25-55 | for any two samples of nobody that wrap to within the total, an impossible measurement is shown |
| `IdentityAttribution.RefusedWithRows` | identity/core/attribution.cc:55-63 | for any two samples of different identities that do, it is refused with its rows left |
| `IdentityAttributionEngine.SumWithinTotal` | identity/core/attribution.cc:66-74 | the check that detects wrap-around decides whether the sum is within the total |
| `IdentityAttributionEngine.ChargeShared` | identity/core/attribution.cc:41-50 | the split with a remainder that runs out |
| `IdentityAttributionEngine.AttributeMemory` | identity/core/attribution.cc:14-64 | the outcome and the rows left behind |
| `FilterMatcher.GreedyIsMeaning` | fakes/shield.py:776-783 | without a right anchor the matcher is true if and only if ordered, non-overlapping placements of all segments exist |
| `FilterMatcher.RightAnchorExact` | fakes/shield.py:757-775 | with a right anchor and several segments the matcher is sound, and misses a placement exactly when the last segment reaches the end from two starts and the front ends between them |
| `FilterMatcher.RightAnchorComplete` | fakes/shield.py:757-775 | it is complete when the last segment does not end in a separator mark |
| `FilterMatcher.SingleSegmentExact` | fakes/shield.py:757-775 | with one segment the left anchor is not consulted: the matcher agrees with the meaning exactly when that makes no difference |
| `FilterMatcher.MatcherIff` | fakes/shield.py:748-783 | all anchors together: the matcher decides the meaning except exactly in these two cases |
| `FilterGrammar.EmptySegmentUnreachable` | fakes/shield.py:256-258 | the refusal of an empty interior segment never fires |
| `FilterGrammar.CutKeepsMeaning` | fakes/shield.py:246-255 | cutting a body into segments keeps the meaning of its wildcards and separators |
| `FilterGrammar.EffectiveIsTrimmed` | fakes/shield.py:752-756 | with a right anchor the wildcards at the end of a body do not count |
| `FilterGrammar.SegmentsSay` | fakes/shield.py:748-783 | what segments promise, for all anchors, is what the body as written says, without the wildcards before a right anchor |
| `FilterMeaning.MarkMeans` | fakes/shield.py:724-738 | a mark stands for a slash, a colon or the end of the text |
| `FilterMeaning.StarMeans` | fakes/shield.py:246-255 | a wildcard stands for any stretch |
| `FilterMeaning.LetterMeans` | fakes/shield.py:724-738 | any other character for itself |
| `FilterMeaning.BodyMeans` | fakes/shield.py:724-783 | and a body for what its characters stand for, one after the other |
| `FilterMeaning.LowerIs` | fakes/shield.py:59-63 | lowering changes the twenty-six letters and nothing else |
| `FilterMeaning.CaseIsIgnored` | fakes/shield.py:786-800 | the case of a path makes no difference |
| `FilterMeaning.AcceptedIff` | fakes/shield.py:211-263 | a text is a filter if and only if it is supported and has a shape, which decides its anchors and its body |
| `FilterMeaning.RejectionTokens` | fakes/shield.py:211-263 | the token of an unsupported text, in the order in which it is looked at |
| `FilterGrammar.HostOkIs` | fakes/shield.py:801-806 | a host fits a domain if and only if the domain is blank, is the host, or the host is below it |
| `FilterGrammar.DomainCut` | fakes/shield.py:797-811 | cutting the domain off the first segment is cutting it off the body |
| `FilterGrammar.FilterDecidesGlob` | fakes/shield.py:786-812 | every accepted filter matches a URL if and only if its domain fits and its body as written, with its anchors, says so of the URL or the path, except exactly where a right anchor is misjudged |
| `FilterGrammar.MissedPlacement` | fakes/shield.py:757-775 | a filter and a URL that it should match and does not |
| `FilterGrammar.LeftAnchorIgnored` | fakes/shield.py:757-775 | a filter and a URL that it should not match and does |
| `FilterEngine.MatchSegAt` | fakes/shield.py:724-737 | where a segment ends at a position, character by character |
| `FilterEngine.FindSegFrom` | fakes/shield.py:740-745 | the first placement from a position on |
| `FilterEngine.MatchAll` | fakes/shield.py:748-783 | the matcher over all segments |
| `FilterEngine.CutBody` | fakes/shield.py:246-255 | the segmentation loop |
| `FilterEngine.Parse` | fakes/shield.py:211-263 | the filter parser with its refusals in order |

## Left out

- Rounding and formatting of doubles are not modelled: which text is read as which double is left open. What is used of it, and only where doubles matter, is that the text of a double is a numeral that reads back as that double, which C++ promises of `std::to_chars`.
- JsonParser.Parser.Run: a failed parse is one value here, without the message and the offset of the source.
- Value equality of JSON (`operator==`) is Dafny equality; the source also holds 0.0 and -0.0 to be equal.
- PermissionEngine.FreshId: the counter of the permission store is an unbounded natural; wrapping at 2^64 is not modelled, because the saved text is signed and no longer loads from 2^63 on.
- The addition of seven days to a creation time is unbounded; in the source it is undefined where it overflows, which a loaded grant can reach and a new grant cannot.
- Audit rows are values; their JSON, the activity summaries and the ledger texts are not modelled, nor is the text of the host's reply.
- Command lines, standard input, temporary files and flushing of the host are left out: an atomic write happens or does not.
- PermissionHost.CrashSafety: asks that the counter stay below 2^63 at the end of the run, because beyond it the saved text does not load; CrashSafetyFromNothing shows that a run from an empty disk needs 2^63 - 1 requests to get there.
- PermissionHost.StepCommits: asks the same of the store after the one request, for the same reason; so does PermissionHost.TimeHolds.
- PolicyService.EmissionAgrees: asks that the sequence number still fits the signed field of the blob; PolicyService.ReplicaAgrees and PolicyReplica.LossyReplica ask for at most 2^63 - 1 events from the start, which implies it. PolicySnapshotLaws.FullReconstructs and DiffReconstructs show that both halves of that condition are needed.
- Parsing of a resolve request (identities, bindings, exceptions, enterprise fields, origin and class checks) is not modelled, except for its permission overlay; the resolver starts from the parsed request.
- Loading and merging of stored policy layers, managed policy signatures and store migrations are not part of this model.
- Error details of snapshots are dropped and error kinds kept; the version mismatch kind is never produced by the source.
- Sorting is a stable insertion sort where the source calls the library; entries with equal keys, and rows with equal sizes, may come out in another order in the source.
- Sequence numbers, generations, ticks and statistics are unbounded naturals.
- Mutexes are left out: each method of the service and the cache is one step.
- SHA-256 is a parameter, and minting a domain from a digest is modelled from the sixteen bytes on.
- Template rows, colours, glyphs, promotion to another grade and preference lookup of identities are left out; a creation is an insertion of an active record.
- Direct hibernation through the manager page bypasses the scheduler and is not one of the scheduler's operations here.
- Restored window names are kept as read; the source leaves them empty when it writes.
- Bundles, manifests, exception scopes, postures and event rings of the filter façade are left out.
- Splitting a URL into parts is left out; the matcher starts from scheme, host and path.
- Theme loading, contrast, button order, attention ceilings and other table-like members would only add easy properties.
