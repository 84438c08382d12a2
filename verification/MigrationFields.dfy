/**
 Field by field, what a migration makes of a file: which steps run, which fields
 leave, and that everything else is in the output as it was, its nulls removed.
 */
module MigrationFields {
  import opened Basics
  import opened JsonDiff
  import opened Migration

  // ---------- Which steps run ----------

  /** A client goes through both steps from version 0 and the second from version 1; a relay has one; a server none. */
  lemma StepsAre(e: Surroundings, kind: ConfigKind, version: nat, j: Json)
    requires version <= 2
    ensures RunSteps(e, kind, version, j).1
            == match kind
               case Client => if version == 0 then [0, 1] else if version == 1 then [1] else []
               case Relay => if version <= 1 then [1] else []
               case Server => []
  {
    var two := RunSteps(e, kind, 2, j);
    if version <= 1 { OneStep(e, kind, j); }
    if version == 0 {
      var m := if kind == Client then e.flatten(j) else j;
      OneStep(e, kind, m);
    }
  }

  /** From version 1 on. */
  lemma OneStep(e: Surroundings, kind: ConfigKind, j: Json)
    ensures RunSteps(e, kind, 1, j)
            == match kind
               case Client => (ClientDropRemoved(j), [1])
               case Relay => (RelayDropAuth(j), [1])
               case Server => (j, [])
  {
    if HasStep(kind, 1) {
      var m := RunStep(e, kind, 1, j);
      assert RunSteps(e, kind, 2, m) == (m, []);
      assert [1] + [] == [1];
    } else {
      assert RunSteps(e, kind, 2, j) == (j, []);
    }
  }

  /** A version 0 client is migrated as the flat file it is converted to; others as version 1. */
  lemma VersionZero(e: Surroundings, kind: ConfigKind, j: Json)
    requires e.Valid() && j.Obj?
    ensures Output(e, kind, 0, j) == Output(e, kind, 1, if kind == Client then e.flatten(j) else j)
  {
  }

  // ---------- Which fields leave ----------

  /** What a client's `tun` and `transport` no longer hold. */
  function Removed(outer: string): set<string> {
    if outer == "tun" then {"wintun_path", "ipv4_address"}
    else if outer == "transport" then {"wss", "stealth_sni"}
    else {}
  }

  /** What a relay no longer holds. */
  predicate RelayOnly(key: string) {
    key == "upstream_api_url" || key == "upstream_api_token" || key == "sync_interval_secs"
  }

  /** A top-level field as the steps from this version leave it. */
  function Kept(kind: ConfigKind, version: nat, j: Json, key: string): Option<Json> {
    if version >= 2 then Get(j, key)
    else if kind == Relay && RelayOnly(key) then None
    else if kind == Client && Has(j, key) && j.fields[key].Obj? then Some(Obj(j.fields[key].fields - Removed(key)))
    else Get(j, key)
  }

  lemma PruneKeeps(j: Json, outer: string, gone: set<string>, key: string)
    requires j.Obj?
    ensures Prune(j, outer, gone).Obj?
    ensures Get(Prune(j, outer, gone), key)
            == if key == outer && Has(j, key) && j.fields[key].Obj? then Some(Obj(j.fields[key].fields - gone)) else Get(j, key)
  {
  }

  lemma NothingGone(m: map<string, Json>)
    ensures m - {} == m
  {
  }

  lemma ClientKeeps(j: Json, key: string)
    requires j.Obj?
    ensures ClientDropRemoved(j).Obj? && Get(ClientDropRemoved(j), key) == Kept(Client, 1, j, key)
  {
    var m := Prune(j, "tun", {"wintun_path", "ipv4_address"});
    PruneKeeps(j, "tun", {"wintun_path", "ipv4_address"}, key);
    PruneKeeps(m, "transport", {"wss", "stealth_sni"}, key);
    if Has(j, key) && j.fields[key].Obj? { NothingGone(j.fields[key].fields); }
  }

  lemma StepsKeep(e: Surroundings, kind: ConfigKind, version: nat, j: Json, key: string)
    requires j.Obj? && 1 <= version <= 2
    ensures RunSteps(e, kind, version, j).0.Obj? && Get(RunSteps(e, kind, version, j).0, key) == Kept(kind, version, j, key)
  {
    if version == 1 {
      OneStep(e, kind, j);
      if kind == Client { ClientKeeps(j, key); }
    }
  }

  /** A field without its nulls; none if it is null itself. */
  function Cleaned(j: Option<Json>): Option<Json> {
    if j.Some? && !j.value.Null? then Some(Strip(j.value)) else None
  }

  /**
   The output, field by field, from version 1 on: its kind and version, and every other
   field as the steps leave it, its nulls removed; and no field besides.
   */
  lemma OutputIsExact(e: Surroundings, kind: ConfigKind, version: nat, j: Json, key: string)
    requires e.Valid() && j.Obj? && 1 <= version <= 2
    ensures Get(Output(e, kind, version, j), key)
            == if key == "mode" then Some(Str(KindName(kind)))
               else if key == "config_version" then Some(Num(Whole(2)))
               else Cleaned(Kept(kind, version, j, key))
  {
    StepsKeepObject(e, kind, version, j);
    StepsKeep(e, kind, version, j, key);
    StampShows(e, kind, version, j);
    var s := Stamped(RunSteps(e, kind, version, j).0, kind);
    StripField(s, key);
    if key != "mode" && key != "config_version" { assert Get(s, key) == Get(RunSteps(e, kind, version, j).0, key); }
  }

  /** What a migrated file is, from version 1 on. */
  lemma MigratedField(e: Surroundings, input: Json, key: string)
    requires e.Valid() && Migrate(e, input).Ok? && DetectVersion(input) >= 1
    ensures var m := Migrate(e, input).value;
            Get(m.output, key)
            == if key == "mode" then Some(Str(KindName(m.kind)))
               else if key == "config_version" then Some(Num(Whole(2)))
               else Cleaned(Kept(m.kind, DetectVersion(input), input, key))
  {
    OutputIsExact(e, DetectKind(input).value, DetectVersion(input), input, key);
  }

  lemma InnerOfStrip(j: Json, key: string)
    requires j.Obj?
    ensures Strip(j).Obj? && Get(Strip(j), key) == Cleaned(Get(j, key))
  {
    StripField(j, key);
  }

  /** What is left inside, field by field. */
  lemma InnerLeft(j: Json, outer: string, key: string)
    requires j.Obj?
    ensures var inner := Obj(j.fields - Removed(outer));
            && Strip(inner).Obj?
            && Get(Strip(inner), key) == if key in Removed(outer) then None else Cleaned(Get(j, key))
  {
    InnerOfStrip(Obj(j.fields - Removed(outer)), key);
  }

  /**
   Inside a client's `tun` and `transport`, from version 1: exactly the four settings of
   removed features go; every other setting is as it was, its nulls removed.
   */
  lemma InnerFieldsSurvive(e: Surroundings, input: Json, outer: string, key: string)
    requires e.Valid() && Migrate(e, input).Ok? && Migrate(e, input).value.kind == Client && DetectVersion(input) == 1
    requires (outer == "tun" || outer == "transport") && Has(input, outer) && input.fields[outer].Obj?
    ensures var out := Migrate(e, input).value.output;
            && Has(out, outer)
            && (if (outer == "tun" && (key == "wintun_path" || key == "ipv4_address"))
                   || (outer == "transport" && (key == "wss" || key == "stealth_sni"))
                then !Has(out.fields[outer], key)
                else Get(out.fields[outer], key) == Cleaned(Get(input.fields[outer], key)))
  {
    MigratedField(e, input, outer);
    InnerLeft(input.fields[outer], outer, key);
    RemovedAre(outer, key);
  }

  lemma RemovedAre(outer: string, key: string)
    ensures key in Removed(outer)
            <==> (outer == "tun" && (key == "wintun_path" || key == "ipv4_address"))
                 || (outer == "transport" && (key == "wss" || key == "stealth_sni"))
  {
  }

  /** Servers and relays keep `tun` and `transport` whole, and so does a client already at version 2. */
  lemma OuterFieldsSurvive(e: Surroundings, input: Json, outer: string)
    requires e.Valid() && Migrate(e, input).Ok? && (outer == "tun" || outer == "transport") && DetectVersion(input) >= 1
    requires Migrate(e, input).value.kind != Client || DetectVersion(input) == 2
    ensures Get(Migrate(e, input).value.output, outer) == Cleaned(Get(input, outer))
  {
    MigratedField(e, input, outer);
  }

  /** A relay loses exactly its own authentication settings. */
  lemma RelayLosesExactly(e: Surroundings, input: Json, key: string)
    requires e.Valid() && Migrate(e, input).Ok? && Migrate(e, input).value.kind == Relay && DetectVersion(input) == 1
    requires key != "mode" && key != "config_version"
    ensures Get(Migrate(e, input).value.output, key) == if RelayOnly(key) then None else Cleaned(Get(input, key))
  {
    MigratedField(e, input, key);
  }

  /** A server file keeps everything, and gains its tag and stamp. */
  lemma ServerLosesNothing(e: Surroundings, input: Json, key: string)
    requires e.Valid() && Migrate(e, input).Ok? && Migrate(e, input).value.kind == Server && DetectVersion(input) >= 1
    requires key != "mode" && key != "config_version"
    ensures Get(Migrate(e, input).value.output, key) == Cleaned(Get(input, key))
  {
    MigratedField(e, input, key);
  }

  // ---------- What a file is ----------

  predicate Marks(kind: ConfigKind, j: Json) {
    match kind
    case Relay => Has(j, "upstream_tcp") || Has(j, "upstream_api_url")
    case Server => Has(j, "access_keys") || Has(j, "listen")
    case Client => Has(j, "access_key") || Has(j, "server") || Has(j, "outbounds")
  }

  predicate Tagged(kind: ConfigKind, j: Json) { Get(j, "mode") == Some(Str(KindName(kind))) }

  predicate Untagged(j: Json) { !Tagged(Client, j) && !Tagged(Server, j) && !Tagged(Relay, j) }

  /** A tag decides; without one, a relay's fields do, then a server's, then a client's, and nothing else does. */
  lemma KindIff(j: Json, kind: ConfigKind)
    ensures DetectKind(j) == Some(kind)
            <==> Tagged(kind, j)
                 || (Untagged(j) && Marks(kind, j)
                     && (kind == Server ==> !Marks(Relay, j)) && (kind == Client ==> !Marks(Relay, j) && !Marks(Server, j)))
  {
    TagsDiffer(j);
  }

  lemma TagsDiffer(j: Json)
    ensures TaggedKind(j)
            == if Tagged(Client, j) then Some(Client) else if Tagged(Server, j) then Some(Server)
               else if Tagged(Relay, j) then Some(Relay) else None
  {
  }

  /** A file is of no known kind exactly when it has no tag and none of the fields each shape has always had. */
  lemma UnknownIff(e: Surroundings, j: Json)
    requires e.Valid() && j.Obj?
    ensures Migrate(e, j) == Err(UnknownKind) <==> Untagged(j) && !Marks(Relay, j) && !Marks(Server, j) && !Marks(Client, j)
  {
    TagsDiffer(j);
  }

  /** Without a stamp the shape dates a file: version 0 exactly when it has lists of inbounds and outbounds. */
  lemma DatedByShape(j: Json)
    requires !Has(j, "config_version")
    ensures DetectVersion(j) <= 1
    ensures DetectVersion(j) == 0
            <==> Has(j, "inbounds") && j.fields["inbounds"].Arr? && Has(j, "outbounds") && j.fields["outbounds"].Arr?
  {
  }
}
