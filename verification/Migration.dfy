/**
 Config migration: what kind and version a file is, the steps it goes through, and
 the report. Migrating an accepted output again runs no step and changes nothing,
 and only the fields a step names are ever lost.

 The conversion of the 0.3.x modular client format and the check against the typed
 schema are parameters; nothing is assumed about the first but that it yields an
 object, and nothing about the second.
 */
module Migration {
  import opened Basics
  import opened JsonDiff

  const CURRENT_VERSION: nat := 2
  const U32: nat := 0x1_0000_0000

  datatype ConfigKind = Client | Server | Relay

  function KindName(k: ConfigKind): string {
    match k case Client => "client" case Server => "server" case Relay => "relay"
  }

  datatype Error = NotAnObject | UnknownKind | NewerSchema(version: nat) | SchemaMismatch

  datatype Migrated = Migrated(kind: ConfigKind, fromVersion: nat, output: Json, steps: seq<nat>, changes: seq<Change>)

  datatype Result<T> = Ok(value: T) | Err(error: Error)

  datatype Surroundings = Surroundings(flatten: Json -> Json, accepts: Json -> bool)
  {
    ghost predicate Valid() {
      forall j :: flatten(j).Obj?
    }
  }

  // ---------- Reading a file ----------

  function Get(j: Json, key: string): Option<Json> {
    if j.Obj? && key in j.fields then Some(j.fields[key]) else None
  }

  predicate Has(j: Json, key: string) { Get(j, key).Some? }

  function TaggedKind(j: Json): Option<ConfigKind> {
    match Get(j, "mode")
    case Some(Str("client")) => Some(Client)
    case Some(Str("server")) => Some(Server)
    case Some(Str("relay")) => Some(Relay)
    case _ => None
  }

  /** The file's tag, or else the fields each shape has always had. */
  function DetectKind(j: Json): Option<ConfigKind> {
    var tag := TaggedKind(j);
    if tag.Some? then tag
    else if Has(j, "upstream_tcp") || Has(j, "upstream_api_url") then Some(Relay)
    else if Has(j, "access_keys") || Has(j, "listen") then Some(Server)
    else if Has(j, "access_key") || Has(j, "server") || Has(j, "outbounds") then Some(Client)
    else None
  }

  predicate IsArray(j: Option<Json>) { j.Some? && j.value.Arr? }

  /** The stamp, cut to 32 bits, or else dated by shape. */
  function DetectVersion(j: Json): nat {
    match Get(j, "config_version")
    case Some(Num(Whole(n))) => n % U32
    case _ => if IsArray(Get(j, "inbounds")) && IsArray(Get(j, "outbounds")) then 0 else 1
  }

  // ---------- The steps ----------

  /** The object under `key` without some of its fields. */
  function Prune(j: Json, key: string, gone: set<string>): Json {
    if j.Obj? && key in j.fields && j.fields[key].Obj? then Obj(j.fields[key := Obj(j.fields[key].fields - gone)]) else j
  }

  function ClientDropRemoved(j: Json): Json {
    Prune(Prune(j, "tun", {"wintun_path", "ipv4_address"}), "transport", {"wss", "stealth_sni"})
  }

  function RelayDropAuth(j: Json): Json {
    if j.Obj? then Obj(j.fields - {"upstream_api_url", "upstream_api_token", "sync_interval_secs"}) else j
  }

  predicate HasStep(kind: ConfigKind, version: nat) {
    (kind == Client && version <= 1) || (kind == Relay && version == 1)
  }

  function RunStep(e: Surroundings, kind: ConfigKind, version: nat, j: Json): Json
    requires HasStep(kind, version)
  {
    if kind == Client then if version == 0 then e.flatten(j) else ClientDropRemoved(j) else RelayDropAuth(j)
  }

  /** Every step of this kind from `version` on, and which ran. */
  function RunSteps(e: Surroundings, kind: ConfigKind, version: nat, j: Json): (Json, seq<nat>)
    decreases CURRENT_VERSION - version
  {
    if version >= CURRENT_VERSION then (j, [])
    else if HasStep(kind, version) then
      var (r, ran) := RunSteps(e, kind, version + 1, RunStep(e, kind, version, j));
      (r, [version] + ran)
    else RunSteps(e, kind, version + 1, j)
  }

  function Stamped(j: Json, kind: ConfigKind): Json
    requires j.Obj?
  {
    Obj(j.fields["mode" := Str(KindName(kind))]["config_version" := Num(Whole(CURRENT_VERSION))])
  }

  lemma StepsKeepObject(e: Surroundings, kind: ConfigKind, version: nat, j: Json)
    requires e.Valid() && j.Obj?
    ensures RunSteps(e, kind, version, j).0.Obj?
    decreases CURRENT_VERSION - version
  {
    if version < CURRENT_VERSION {
      StepsKeepObject(e, kind, version + 1, if HasStep(kind, version) then RunStep(e, kind, version, j) else j);
    }
  }

  function Output(e: Surroundings, kind: ConfigKind, version: nat, j: Json): Json
    requires e.Valid() && j.Obj?
  {
    StepsKeepObject(e, kind, version, j);
    Strip(Stamped(RunSteps(e, kind, version, j).0, kind))
  }

  /** What the driver computes. */
  function Migrate(e: Surroundings, input: Json): Result<Migrated>
    requires e.Valid()
  {
    if !input.Obj? then Err(NotAnObject)
    else
      match DetectKind(input)
      case None => Err(UnknownKind)
      case Some(kind) =>
        var from := DetectVersion(input);
        if from > CURRENT_VERSION then Err(NewerSchema(from)) else Finish(e, kind, from, input)
  }

  function Finish(e: Surroundings, kind: ConfigKind, from: nat, input: Json): Result<Migrated>
    requires e.Valid() && input.Obj?
  {
    var out := Output(e, kind, from, input);
    if !e.accepts(out) then Err(SchemaMismatch)
    else Ok(Migrated(kind, from, out, RunSteps(e, kind, from, input).1, Diff(input, out, [])))
  }

  /** The driver's loop over versions, editing one value in place. */
  method RunFrom(e: Surroundings, kind: ConfigKind, from: nat, input: Json) returns (out: Json, steps: seq<nat>)
    requires from <= CURRENT_VERSION
    ensures (out, steps) == RunSteps(e, kind, from, input)
  {
    out, steps := input, [];
    assert [] + RunSteps(e, kind, from, input).1 == RunSteps(e, kind, from, input).1;
    for version := from to CURRENT_VERSION
      invariant var (j, ran) := RunSteps(e, kind, version, out);
                RunSteps(e, kind, from, input) == (j, steps + ran)
    {
      if HasStep(kind, version) {
        ghost var ran := RunSteps(e, kind, version, out).1;
        out := RunStep(e, kind, version, out);
        assert ran == [version] + RunSteps(e, kind, version + 1, out).1;
        assert steps + ran == (steps + [version]) + RunSteps(e, kind, version + 1, out).1;
        steps := steps + [version];
      }
    }
    assert steps + [] == steps;
  }

  method Drive(e: Surroundings, kind: ConfigKind, from: nat, input: Json) returns (r: Result<Migrated>)
    requires e.Valid() && input.Obj? && from <= CURRENT_VERSION
    ensures r == Finish(e, kind, from, input)
  {
    var ran, steps := RunFrom(e, kind, from, input);
    StepsKeepObject(e, kind, from, input);
    var out := Strip(Stamped(ran, kind));
    assert out == Output(e, kind, from, input);
    if !e.accepts(out) {
      return Err(SchemaMismatch);
    }
    var changes := CollectDiff(input, out, [], []);
    assert changes == Diff(input, out, []);
    r := Ok(Migrated(kind, from, out, steps, changes));
  }

  method RunMigration(e: Surroundings, input: Json) returns (r: Result<Migrated>)
    requires e.Valid()
    ensures r == Migrate(e, input)
  {
    if !input.Obj? {
      return Err(NotAnObject);
    }
    var kind := DetectKind(input);
    if kind.None? {
      return Err(UnknownKind);
    }
    var from := DetectVersion(input);
    if from > CURRENT_VERSION {
      return Err(NewerSchema(from));
    }
    r := Drive(e, kind.value, from, input);
  }

  // ---------- Once is enough ----------

  lemma StripField(j: Json, k: string)
    requires j.Obj?
    ensures Get(Strip(j), k) == if Has(j, k) && !j.fields[k].Null? then Some(Strip(j.fields[k])) else None
  {
  }

  /** The output carries its kind and version. */
  lemma StampShows(e: Surroundings, kind: ConfigKind, version: nat, j: Json)
    requires e.Valid() && j.Obj?
    ensures var out := Output(e, kind, version, j);
            && out.Obj? && Get(out, "mode") == Some(Str(KindName(kind)))
            && Get(out, "config_version") == Some(Num(Whole(CURRENT_VERSION)))
  {
    StepsKeepObject(e, kind, version, j);
    var s := Stamped(RunSteps(e, kind, version, j).0, kind);
    StripField(s, "mode");
    StripField(s, "config_version");
    assert s.fields["mode"] == Str(KindName(kind)) && s.fields["config_version"] == Num(Whole(2));
    assert Strip(s.fields["mode"]) == s.fields["mode"] && Strip(s.fields["config_version"]) == s.fields["config_version"];
  }

  lemma TagDecides(j: Json, kind: ConfigKind)
    requires Get(j, "mode") == Some(Str(KindName(kind)))
    ensures TaggedKind(j) == DetectKind(j) == Some(kind)
  {
  }

  lemma OutputIsCurrent(e: Surroundings, kind: ConfigKind, version: nat, j: Json)
    requires e.Valid() && j.Obj?
    ensures var out := Output(e, kind, version, j);
            out.Obj? && TaggedKind(out) == DetectKind(out) == Some(kind) && DetectVersion(out) == CURRENT_VERSION
            && NoNullField(out) && Stamped(out, kind) == out
  {
    StepsKeepObject(e, kind, version, j);
    StampShows(e, kind, version, j);
    var out := Output(e, kind, version, j);
    StripClears(Stamped(RunSteps(e, kind, version, j).0, kind));
    TagDecides(out, kind);
    assert Stamped(out, kind).fields == out.fields;
  }

  /** An accepted migration's output migrates to itself: no step runs and no change is reported. */
  lemma MigratingAgainChangesNothing(e: Surroundings, input: Json)
    requires e.Valid() && Migrate(e, input).Ok?
    ensures var m := Migrate(e, input).value;
            Migrate(e, m.output) == Ok(Migrated(m.kind, CURRENT_VERSION, m.output, [], []))
  {
    var kind, from := DetectKind(input).value, DetectVersion(input);
    var out := Migrate(e, input).value.output;
    OutputIsCurrent(e, kind, from, input);
    StripChangesOnlyNulls(out);
    assert RunSteps(e, kind, CURRENT_VERSION, out) == (out, []);
    NoChangeIffEqual(out, out, []);
  }

  /** The reported changes lead from the input to the output and back. */
  lemma ReportMatchesOutput(e: Surroundings, input: Json)
    requires e.Valid() && Migrate(e, input).Ok?
    ensures var m := Migrate(e, input).value;
            && Apply(input, m.changes, 0) == m.output
            && Apply(m.output, Inverses(m.changes), 0) == input
            && (m.changes == [] <==> m.output == input)
  {
    ReportIsExact(input, Migrate(e, input).value.output);
  }

  predicate Current(j: Json) {
    && j.Obj? && TaggedKind(j).Some? && Get(j, "config_version") == Some(Num(Whole(CURRENT_VERSION)))
    && NoNullField(j)
  }

  lemma CurrentStays(e: Surroundings, kind: ConfigKind, j: Json)
    requires e.Valid() && Current(j) && TaggedKind(j) == Some(kind)
    ensures Output(e, kind, CURRENT_VERSION, j) == j
  {
    assert RunSteps(e, kind, CURRENT_VERSION, j) == (j, []);
    assert Stamped(j, kind).fields == j.fields;
    StripChangesOnlyNulls(j);
  }

  /** A migration reports no change if and only if its file is tagged, stamped 2, and holds no null field. */
  lemma UpToDateIff(e: Surroundings, input: Json)
    requires e.Valid() && Migrate(e, input).Ok?
    ensures Migrate(e, input).value.changes == [] <==> Current(input)
  {
    var kind, from := DetectKind(input).value, DetectVersion(input);
    ReportMatchesOutput(e, input);
    OutputIsCurrent(e, kind, from, input);
    StampShows(e, kind, from, input);
    if Current(input) { CurrentStays(e, kind, input); }
  }

  // ---------- What may be lost ----------

  /** The top-level fields some step may touch. */
  predicate Touchable(key: string) {
    key in {"mode", "config_version", "tun", "transport", "upstream_api_url", "upstream_api_token", "sync_interval_secs"}
  }

  /** From version 1 on, every other top-level field that is not null reaches the output, its nulls removed. */
  lemma OtherFieldsSurvive(e: Surroundings, input: Json, key: string)
    requires e.Valid() && Migrate(e, input).Ok? && DetectVersion(input) >= 1 && !Touchable(key)
    ensures Get(Migrate(e, input).value.output, key)
            == if Has(input, key) && !input.fields[key].Null? then Some(Strip(input.fields[key])) else None
  {
    OutputKeeps(e, DetectKind(input).value, DetectVersion(input), input, key);
  }

  lemma OutputKeeps(e: Surroundings, kind: ConfigKind, version: nat, j: Json, key: string)
    requires e.Valid() && j.Obj? && version >= 1 && !Touchable(key)
    ensures Get(Output(e, kind, version, j), key)
            == if Has(j, key) && !j.fields[key].Null? then Some(Strip(j.fields[key])) else None
  {
    StepsKeepObject(e, kind, version, j);
    StepsKeepOthers(e, kind, version, j, key);
    var ran := RunSteps(e, kind, version, j).0;
    assert Get(Stamped(ran, kind), key) == Get(ran, key);
    StripField(Stamped(ran, kind), key);
  }

  lemma StepsKeepOthers(e: Surroundings, kind: ConfigKind, version: nat, j: Json, key: string)
    requires e.Valid() && j.Obj? && version >= 1 && !Touchable(key)
    ensures Get(RunSteps(e, kind, version, j).0, key) == Get(j, key)
    decreases CURRENT_VERSION - version
  {
    if version < CURRENT_VERSION {
      var next := if HasStep(kind, version) then RunStep(e, kind, version, j) else j;
      assert next.Obj? && Get(next, key) == Get(j, key);
      StepsKeepOthers(e, kind, version + 1, next, key);
    }
  }

  /** The file is refused as written by a newer version. */
  ghost predicate RefusedAsNewer(e: Surroundings, input: Json)
    requires e.Valid()
  {
    exists v :: Migrate(e, input) == Err(NewerSchema(v))
  }

  lemma RefusedExactly(e: Surroundings, input: Json, stamp: nat)
    requires e.Valid() && input.Obj? && DetectKind(input).Some?
    requires Get(input, "config_version") == Some(Num(Whole(stamp)))
    ensures RefusedAsNewer(e, input) <==> stamp % U32 > CURRENT_VERSION
  {
    if stamp % U32 > CURRENT_VERSION { assert Migrate(e, input) == Err(NewerSchema(stamp % U32)); }
  }

  lemma CutIsNewer(stamp: nat)
    ensures (stamp % U32 > CURRENT_VERSION) == (stamp > CURRENT_VERSION)
            <==> stamp <= CURRENT_VERSION || stamp % U32 > CURRENT_VERSION
  {
    if stamp <= CURRENT_VERSION { assert stamp % U32 == stamp; }
  }

  /**
   A stamped file is refused exactly when its stamp is newer than this program knows,
   if and only if the stamp is known or still newer once cut to 32 bits.
   */
  lemma NewerRefusedIff(e: Surroundings, input: Json, stamp: nat)
    requires e.Valid() && input.Obj? && DetectKind(input).Some?
    requires Get(input, "config_version") == Some(Num(Whole(stamp)))
    ensures (RefusedAsNewer(e, input) == (stamp > CURRENT_VERSION))
            <==> stamp <= CURRENT_VERSION || stamp % U32 > CURRENT_VERSION
  {
    RefusedExactly(e, input, stamp);
    CutIsNewer(stamp);
  }

  function FarFuture(): Json {
    Obj(map["mode" := Str("server"), "config_version" := Num(Whole(U32))])
  }

  /** A server file stamped 2^32 is taken for one of version 0 and stamped anew. */
  lemma StampWraps(e: Surroundings)
    requires e.Valid()
    ensures var r := Migrate(e, FarFuture());
            && !RefusedAsNewer(e, FarFuture())
            && (r.Ok? ==> r.value.fromVersion == 0 && Get(r.value.output, "config_version") == Some(Num(Whole(CURRENT_VERSION))))
            && (r.Ok? <==> e.accepts(Output(e, Server, 0, FarFuture())))
  {
    var j := FarFuture();
    TagDecides(j, Server);
    assert DetectVersion(j) == 0;
    RefusedExactly(e, j, U32);
    StampShows(e, Server, 0, j);
  }
}
