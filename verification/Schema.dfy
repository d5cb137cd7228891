/** The schema of interface configurations: backend/rns/schema.py.

    JSON objects are maps, so the order of keys and the wording of error messages are not modelled.
    The names minted for entries without an id are parameters. */
module Schema {
  import opened Wrappers
  import opened Text

  datatype Json =
    | Null
    | Bool(b: bool)
    | Int(n: int)
    | Float(r: real)
    | Str(s: string)
    | List(items: seq<Json>)
    | Obj(fields: map<string, Json>)

  type Fields = map<string, Json>

  /** `Invalid` is the schema error; `Crash` an unhashable value met where a hash is taken. */
  datatype Fault = Invalid | Crash

  function Get(m: Fields, k: string, default: Json): Json { if k in m then m[k] else default }

  function SetDefault(m: Fields, k: string, v: Json): Fields { if k in m then m else m[k := v] }

  // ---------------------------------------------------------------- field checks

  datatype Check =
    | Any | Port | NonNegative | Positive | NonEmptyText | OptionalText | Flag | TextList
    | Enum(allowed: seq<string>) | Range(lo: int, hi: int)

  datatype Field = Field(name: string, required: bool, check: Check)

  predicate NonBlank(s: string) { exists i :: 0 <= i < |s| && !IsSpace(s[i]) }

  predicate Passes(c: Check, v: Json) {
    match c
    case Any => true
    case Port => v.Int? && 1 <= v.n <= 65535
    case NonNegative => v.Int? && v.n >= 0
    case Positive => v.Int? && v.n > 0
    case NonEmptyText => v.Str? && NonBlank(v.s)
    case OptionalText => v.Str?
    case Flag => v.Bool?
    case TextList => v.List? && forall i :: 0 <= i < |v.items| ==> v.items[i].Str?
    case Enum(allowed) => v.Str? && v.s in allowed
    case Range(lo, hi) => v.Int? && lo <= v.n <= hi
  }

  const COMMON: seq<Field> := [
    Field("id", false, Any),
    Field("name", true, NonEmptyText),
    Field("type", true, NonEmptyText),
    Field("enabled", false, Flag),
    Field("mode", false, Enum(["full", "gateway", "access_point", "roaming", "boundary"])),
    Field("outgoing", false, Flag),
    Field("bitrate_hint_bps", false, NonNegative),
    Field("announce_interval_s", false, NonNegative),
    Field("notes", false, OptionalText),
    Field("reliable_cot", false, Flag),
    Field("ifac_size", false, Range(8, 512)),
    Field("ifac_netname", false, OptionalText),
    Field("ifac_netkey", false, OptionalText)]

  const TCP_CLIENT: seq<Field> := [
    Field("target_host", true, NonEmptyText),
    Field("target_port", true, Port),
    Field("kiss_framing", false, Flag),
    Field("i2p_tunneled", false, Flag)]

  const TCP_SERVER: seq<Field> := [
    Field("listen_address", false, NonEmptyText),
    Field("listen_port", true, Port),
    Field("prefer_ipv6", false, Flag),
    Field("i2p_tunneled", false, Flag)]

  const UDP: seq<Field> := [
    Field("listen_address", false, NonEmptyText),
    Field("listen_port", true, Port),
    Field("forward_address", false, OptionalText),
    Field("forward_port", false, Port)]

  const I2P: seq<Field> := [
    Field("peers", false, TextList),
    Field("connectable", false, Flag),
    Field("i2p_sam_address", false, NonEmptyText)]

  const AUTO_INTERFACE: seq<Field> := [
    Field("group_id", true, NonEmptyText),
    Field("discovery_scope", false, Enum(["link", "admin", "site", "organisation", "global"])),
    Field("discovery_port", false, Port),
    Field("data_port", false, Port),
    Field("allowed_interfaces", false, TextList),
    Field("ignored_interfaces", false, TextList)]

  const RNODE: seq<Field> := [
    Field("port", true, NonEmptyText),
    Field("frequency_hz", true, Positive),
    Field("bandwidth_hz", true, Positive),
    Field("txpower_dbm", true, Range(-10, 30)),
    Field("spreadingfactor", true, Range(7, 12)),
    Field("codingrate", true, Range(5, 8)),
    Field("flow_control", false, Flag),
    Field("id_callsign", false, OptionalText),
    Field("id_interval_s", false, NonNegative)]

  const KISS_TNC: seq<Field> := [
    Field("port", true, NonEmptyText),
    Field("speed_baud", true, Positive),
    Field("databits", false, Range(5, 8)),
    Field("parity", false, Enum(["none", "even", "odd"])),
    Field("stopbits", false, Range(1, 2)),
    Field("preamble_ms", false, NonNegative),
    Field("txtail_ms", false, NonNegative),
    Field("persistence", false, Range(0, 255)),
    Field("slottime_ms", false, NonNegative),
    Field("flow_control", false, Flag),
    Field("beacon_interval_s", false, NonNegative),
    Field("beacon_data", false, OptionalText)]

  const AX25_KISS: seq<Field> := KISS_TNC + [
    Field("callsign", true, NonEmptyText),
    Field("ssid", true, Range(0, 15)),
    Field("axint_port", true, NonEmptyText)]

  const PIPE: seq<Field> := [
    Field("command", true, NonEmptyText),
    Field("respawn_delay_s", false, NonNegative)]

  function PerType(t: string): Option<seq<Field>> {
    match t
    case "tcp_client" => Some(TCP_CLIENT)
    case "tcp_server" => Some(TCP_SERVER)
    case "udp" => Some(UDP)
    case "i2p" => Some(I2P)
    case "auto_interface" => Some(AUTO_INTERFACE)
    case "rnode" => Some(RNODE)
    case "kiss_tnc" => Some(KISS_TNC)
    case "ax25_kiss" => Some(AX25_KISS)
    case "pipe" => Some(PIPE)
    case _ => None
  }

  /** Fields whose values belong to one device. */
  function DeviceLocal(t: string): seq<string> {
    match t
    case "tcp_server" => ["listen_address"]
    case "udp" => ["listen_address"]
    case "i2p" => ["i2p_sam_address"]
    case "auto_interface" => ["allowed_interfaces", "ignored_interfaces"]
    case "rnode" => ["port"]
    case "kiss_tnc" => ["port"]
    case "ax25_kiss" => ["port", "axint_port"]
    case _ => []
  }

  // ---------------------------------------------------------------- one interface

  predicate FieldOk(m: Fields, f: Field) { if f.name in m then Passes(f.check, m[f.name]) else !f.required }

  predicate FieldsOk(m: Fields, fs: seq<Field>) { forall i :: 0 <= i < |fs| ==> FieldOk(m, fs[i]) }

  predicate Names(fs: seq<Field>, k: string) { exists i :: 0 <= i < |fs| && fs[i].name == k }

  predicate KeysKnown(m: Fields, fs: seq<Field>) { forall k :: k in m ==> Names(COMMON, k) || Names(fs, k) }

  predicate Unhashable(v: Json) { v.List? || v.Obj? }

  function TypeOf(m: Fields): Json { Get(m, "type", Null) }

  /** The fields special to the entry's type, if it has a known type. */
  function Special(m: Fields): Option<seq<Field>> {
    if TypeOf(m).Str? then PerType(TypeOf(m).s) else None
  }

  function Normalised(m: Fields, freshId: string): Fields {
    var a := SetDefault(m, "id", Str(freshId));
    var b := SetDefault(a, "enabled", Bool(true));
    var c := SetDefault(b, "mode", Str("full"));
    var d := SetDefault(c, "outgoing", Bool(true));
    SetDefault(d, "reliable_cot", Bool(TypeOf(m) != Str("rnode")))
  }

  predicate Acceptable(m: Fields) {
    Special(m).Some? && KeysKnown(m, Special(m).value) && FieldsOk(m, COMMON) && FieldsOk(m, Special(m).value)
  }

  function ValidateInterface(entry: Json, freshId: string): Result<Fields, Fault> {
    if !entry.Obj? then Err(Invalid)
    else if Unhashable(TypeOf(entry.fields)) then Err(Crash)
    else if Acceptable(entry.fields) then Ok(Normalised(entry.fields, freshId))
    else Err(Invalid)
  }

  const DEFAULTED: seq<string> := ["id", "enabled", "mode", "outgoing", "reliable_cot"]

  predicate Free(fs: seq<Field>) { forall i :: 0 <= i < |fs| ==> fs[i].name !in DEFAULTED && fs[i].name != "type" }

  lemma SerialIsFree()
    ensures Free(RNODE) && Free(KISS_TNC)
  {
  }

  lemma SpecialIsFree(t: string)
    requires PerType(t).Some?
    ensures Free(PerType(t).value)
  {
    SerialIsFree();
    assert Free(AX25_KISS);
  }

  lemma DefaultsAreCommon()
    ensures forall k :: k in DEFAULTED ==> Names(COMMON, k)
  {
    assert COMMON[0].name == "id" && COMMON[3].name == "enabled" && COMMON[4].name == "mode";
    assert COMMON[5].name == "outgoing" && COMMON[9].name == "reliable_cot";
  }

  /** What filling in defaults changes: nothing that was there, and only default fields are added. */
  lemma NormalisedFacts(m: Fields, freshId: string)
    ensures var r := Normalised(m, freshId);
            && (forall k :: k in m ==> k in r && r[k] == m[k])
            && (forall k :: k in r ==> k in m || k in DEFAULTED)
            && (forall k :: k in DEFAULTED ==> k in r)
            && TypeOf(r) == TypeOf(m)
  {
    assert DEFAULTED[0] == "id" && DEFAULTED[1] == "enabled" && DEFAULTED[2] == "mode";
    assert DEFAULTED[3] == "outgoing" && DEFAULTED[4] == "reliable_cot";
    assert "type" !in DEFAULTED;
  }

  lemma ModeIsListed()
    ensures "full" in ["full", "gateway", "access_point", "roaming", "boundary"]
  {
    assert ["full", "gateway", "access_point", "roaming", "boundary"][0] == "full";
  }

  /** The checks of the fields that have defaults. */
  lemma ChecksOfDefaults(i: nat)
    requires i < |COMMON| && COMMON[i].name in DEFAULTED
    ensures var f := COMMON[i];
            && (f.name == "mode" ==> Passes(f.check, Str("full")))
            && (f.name != "mode" && f.name != "id" ==> f.check == Flag)
            && (f.name == "id" ==> f.check == Any)
  {
    ModeIsListed();
  }

  lemma DefaultsPass(m: Fields, freshId: string, i: nat)
    requires i < |COMMON| && COMMON[i].name !in m
    ensures var r := Normalised(m, freshId); COMMON[i].name in r ==> Passes(COMMON[i].check, r[COMMON[i].name])
  {
    NormalisedFacts(m, freshId);
    if COMMON[i].name in Normalised(m, freshId) { ChecksOfDefaults(i); }
  }

  /** A validated entry is acceptable again. */
  lemma NormalisedAcceptable(m: Fields, freshId: string)
    requires Acceptable(m)
    ensures Acceptable(Normalised(m, freshId))
  {
    var r, fs := Normalised(m, freshId), Special(m).value;
    NormalisedFacts(m, freshId);
    DefaultsAreCommon();
    SpecialIsFree(TypeOf(m).s);
    forall i | 0 <= i < |COMMON| ensures FieldOk(r, COMMON[i]) {
      assert FieldOk(m, COMMON[i]);
      if COMMON[i].name !in m { DefaultsPass(m, freshId, i); }
    }
    forall i | 0 <= i < |fs| ensures FieldOk(r, fs[i]) {
      assert FieldOk(m, fs[i]);
    }
  }

  lemma InterfaceIdempotent(entry: Json, freshId: string, otherId: string)
    requires ValidateInterface(entry, freshId).Ok?
    ensures var v := ValidateInterface(entry, freshId).value; ValidateInterface(Obj(v), otherId) == Ok(v)
  {
    var v := Normalised(entry.fields, freshId);
    NormalisedAcceptable(entry.fields, freshId);
    NormalisedFacts(entry.fields, freshId);
    assert forall k :: k in DEFAULTED ==> k in v;
    assert DEFAULTED[0] == "id" && DEFAULTED[1] == "enabled" && DEFAULTED[2] == "mode";
    assert DEFAULTED[3] == "outgoing" && DEFAULTED[4] == "reliable_cot";
  }

  /** No field of a validated entry but its id can hold an object. */
  lemma FieldsAreFlat(m: Fields, k: string)
    requires Acceptable(m) && k in m && k != "id"
    ensures !m[k].Obj?
  {
    assert Names(COMMON, k) || Names(Special(m).value, k);
    if Names(COMMON, k) {
      var i :| 0 <= i < |COMMON| && COMMON[i].name == k;
      CommonIsChecked(i);
      assert FieldOk(m, COMMON[i]);
    } else {
      var fs := Special(m).value;
      var i :| 0 <= i < |fs| && fs[i].name == k;
      SpecialIsChecked(TypeOf(m).s, i);
      assert FieldOk(m, fs[i]);
    }
  }

  lemma CommonIsChecked(i: nat)
    requires i < |COMMON|
    ensures COMMON[i].name == "id" || COMMON[i].check != Any
  {
  }

  lemma SpecialIsChecked(t: string, i: nat)
    requires PerType(t).Some? && i < |PerType(t).value|
    ensures PerType(t).value[i].check != Any
  {
  }

  // ---------------------------------------------------------------- what validation promises

  ghost predicate TextIn(m: Fields, k: string) { k in m && m[k].Str? && exists i :: 0 <= i < |m[k].s| && !IsSpace(m[k].s[i]) }

  ghost predicate IntIn(m: Fields, k: string, lo: int, hi: int) { k in m && m[k].Int? && lo <= m[k].n <= hi }

  ghost predicate PositiveIn(m: Fields, k: string) { k in m && m[k].Int? && m[k].n > 0 }

  /** What an entry of each type cannot do without. */
  ghost predicate Equipped(t: string, m: Fields) {
    match t
    case "tcp_client" => TextIn(m, "target_host") && IntIn(m, "target_port", 1, 65535)
    case "tcp_server" => IntIn(m, "listen_port", 1, 65535)
    case "udp" => IntIn(m, "listen_port", 1, 65535)
    case "i2p" => true
    case "auto_interface" => TextIn(m, "group_id")
    case "rnode" =>
      && TextIn(m, "port") && PositiveIn(m, "frequency_hz") && PositiveIn(m, "bandwidth_hz")
      && IntIn(m, "txpower_dbm", -10, 30) && IntIn(m, "spreadingfactor", 7, 12) && IntIn(m, "codingrate", 5, 8)
    case "kiss_tnc" => TextIn(m, "port") && PositiveIn(m, "speed_baud")
    case "ax25_kiss" =>
      && TextIn(m, "port") && PositiveIn(m, "speed_baud")
      && TextIn(m, "callsign") && IntIn(m, "ssid", 0, 15) && TextIn(m, "axint_port")
    case "pipe" => TextIn(m, "command")
    case _ => false
  }

  ghost function Needs(t: string): set<string> {
    match t
    case "tcp_client" => {"target_host", "target_port"}
    case "tcp_server" => {"listen_port"}
    case "udp" => {"listen_port"}
    case "auto_interface" => {"group_id"}
    case "rnode" => {"port", "frequency_hz", "bandwidth_hz", "txpower_dbm", "spreadingfactor", "codingrate"}
    case "kiss_tnc" => {"port", "speed_baud"}
    case "ax25_kiss" => {"port", "speed_baud", "callsign", "ssid", "axint_port"}
    case "pipe" => {"command"}
    case _ => {}
  }

  /** An entry that was accepted has a name, a known type and what that type needs. */
  lemma ValidatedIsEquipped(entry: Json, freshId: string)
    requires ValidateInterface(entry, freshId).Ok?
    ensures var m := entry.fields;
            TextIn(m, "name") && "type" in m && m["type"].Str? && Equipped(m["type"].s, m)
  {
    var m := entry.fields;
    var fs := Special(m).value;
    assert FieldOk(m, COMMON[1]);
    FieldsOfType(m, fs);
  }

  lemma RadioFields(m: Fields)
    requires FieldsOk(m, RNODE)
    ensures Equipped("rnode", m)
  {
    assert FieldOk(m, RNODE[0]) && FieldOk(m, RNODE[1]) && FieldOk(m, RNODE[2]);
    assert FieldOk(m, RNODE[3]) && FieldOk(m, RNODE[4]) && FieldOk(m, RNODE[5]);
  }

  lemma PacketFields(m: Fields)
    requires FieldsOk(m, AX25_KISS)
    ensures Equipped("ax25_kiss", m)
  {
    assert FieldOk(m, AX25_KISS[0]) && FieldOk(m, AX25_KISS[1]);
    assert FieldOk(m, AX25_KISS[12]) && FieldOk(m, AX25_KISS[13]) && FieldOk(m, AX25_KISS[14]);
  }

  lemma FieldsOfType(m: Fields, fs: seq<Field>)
    requires Special(m) == Some(fs) && FieldsOk(m, fs)
    ensures Equipped(TypeOf(m).s, m)
  {
    forall i | 0 <= i < |fs| ensures FieldOk(m, fs[i]) {}
    match TypeOf(m).s
    case "tcp_client" => assert FieldOk(m, TCP_CLIENT[0]) && FieldOk(m, TCP_CLIENT[1]);
    case "tcp_server" => assert FieldOk(m, TCP_SERVER[1]);
    case "udp" => assert FieldOk(m, UDP[1]);
    case "auto_interface" => assert FieldOk(m, AUTO_INTERFACE[0]);
    case "rnode" => RadioFields(m);
    case "kiss_tnc" => assert FieldOk(m, KISS_TNC[0]) && FieldOk(m, KISS_TNC[1]);
    case "ax25_kiss" => PacketFields(m);
    case "pipe" => assert FieldOk(m, PIPE[0]);
    case _ =>
  }

  const KNOWN_TYPES: set<string> :=
    {"tcp_client", "tcp_server", "udp", "i2p", "auto_interface", "rnode", "kiss_tnc", "ax25_kiss", "pipe"}

  lemma TypeIsNonBlank(t: string)
    requires PerType(t).Some?
    ensures NonBlank(t)
  {
    assert !IsSpace(t[0]);
  }

  lemma CommonIsOptional(i: nat, t: string)
    requires i < |COMMON|
    ensures COMMON[i].name !in Needs(t)
    ensures COMMON[i].name != "name" && COMMON[i].name != "type" ==> !COMMON[i].required
    ensures COMMON[i].name == "name" || COMMON[i].name == "type" ==> COMMON[i].check == NonEmptyText
  {
  }

  lemma CommonFits(t: string, m: Fields, i: nat)
    requires TextIn(m, "name") && "type" in m && m["type"] == Str(t) && PerType(t).Some?
    requires m.Keys == {"name", "type"} + Needs(t) && i < |COMMON|
    ensures FieldOk(m, COMMON[i])
  {
    TypeIsNonBlank(t);
    CommonIsOptional(i, t);
  }

  lemma SpecialIsNeeded(t: string, i: nat)
    requires PerType(t).Some? && i < |PerType(t).value|
    ensures var f := PerType(t).value[i];
            f.name != "name" && f.name != "type" && (f.name in Needs(t) ==> f.required) && (f.required ==> f.name in Needs(t))
  {
  }

  lemma RadioNeedsPass(m: Fields, i: nat)
    requires i < |RNODE| && RNODE[i].name in Needs("rnode") && Equipped("rnode", m)
    ensures RNODE[i].name in m && Passes(RNODE[i].check, m[RNODE[i].name])
  {
  }

  lemma PacketNeedsPass(m: Fields, i: nat)
    requires i < |AX25_KISS| && AX25_KISS[i].name in Needs("ax25_kiss") && Equipped("ax25_kiss", m)
    ensures AX25_KISS[i].name in m && Passes(AX25_KISS[i].check, m[AX25_KISS[i].name])
  {
  }

  lemma NeedsPass(t: string, m: Fields, i: nat)
    requires PerType(t).Some? && i < |PerType(t).value| && PerType(t).value[i].name in Needs(t) && Equipped(t, m)
    ensures var f := PerType(t).value[i]; f.name in m && Passes(f.check, m[f.name])
  {
    if t == "rnode" { RadioNeedsPass(m, i); }
    else if t == "ax25_kiss" { PacketNeedsPass(m, i); }
  }

  lemma KeyIsKnown(t: string, k: string)
    requires PerType(t).Some? && k in {"name", "type"} + Needs(t)
    ensures Names(COMMON, k) || Names(PerType(t).value, k)
  {
    assert COMMON[1].name == "name" && COMMON[2].name == "type";
    var fs := PerType(t).value;
    match t
    case "tcp_client" => assert fs[0].name == "target_host" && fs[1].name == "target_port";
    case "tcp_server" => assert fs[1].name == "listen_port";
    case "udp" => assert fs[1].name == "listen_port";
    case "auto_interface" => assert fs[0].name == "group_id";
    case "rnode" =>
      assert fs[0].name == "port" && fs[1].name == "frequency_hz" && fs[2].name == "bandwidth_hz";
      assert fs[3].name == "txpower_dbm" && fs[4].name == "spreadingfactor" && fs[5].name == "codingrate";
    case "kiss_tnc" => assert fs[0].name == "port" && fs[1].name == "speed_baud";
    case "ax25_kiss" =>
      assert fs[0].name == "port" && fs[1].name == "speed_baud" && fs[12].name == "callsign";
      assert fs[13].name == "ssid" && fs[14].name == "axint_port";
    case "pipe" => assert fs[0].name == "command";
    case _ =>
  }

  lemma DefaultsAreFree(t: string, k: string)
    requires k in DEFAULTED
    ensures k !in {"name", "type"} + Needs(t)
  {
  }

  lemma EquippedIsAcceptable(t: string, m: Fields)
    requires TextIn(m, "name") && "type" in m && m["type"] == Str(t) && PerType(t).Some? && Equipped(t, m)
    requires m.Keys == {"name", "type"} + Needs(t)
    ensures Acceptable(m)
  {
    var fs := PerType(t).value;
    forall i | 0 <= i < |COMMON| ensures FieldOk(m, COMMON[i]) { CommonFits(t, m, i); }
    forall i | 0 <= i < |fs| ensures FieldOk(m, fs[i]) {
      SpecialIsNeeded(t, i);
      if fs[i].name in Needs(t) { NeedsPass(t, m, i); }
    }
    forall k | k in m ensures Names(COMMON, k) || Names(fs, k) { KeyIsKnown(t, k); }
  }

  lemma AllDefaults(m: Fields, freshId: string)
    requires forall k :: k in DEFAULTED ==> k !in m
    ensures Normalised(m, freshId) ==
            m["id" := Str(freshId)]["enabled" := Bool(true)]["mode" := Str("full")]["outgoing" := Bool(true)]
             ["reliable_cot" := Bool(TypeOf(m) != Str("rnode"))]
  {
    assert DEFAULTED[0] == "id" && DEFAULTED[1] == "enabled" && DEFAULTED[2] == "mode";
    assert DEFAULTED[3] == "outgoing" && DEFAULTED[4] == "reliable_cot";
    assert "type" !in DEFAULTED;
  }

  /** Why an entry is turned away: a type that has no hash crashes, anything else is a schema error. */
  lemma WhyRejected(entry: Json, freshId: string)
    requires ValidateInterface(entry, freshId).Err?
    ensures ValidateInterface(entry, freshId).error ==
            if entry.Obj? && "type" in entry.fields && (entry.fields["type"].List? || entry.fields["type"].Obj?) then Crash else Invalid
  {
  }

  /** The least an entry needs is enough: a name, a known type and what that type needs, and nothing
      else.  It is completed by the defaults. */
  lemma EquippedIsValid(t: string, m: Fields, freshId: string)
    requires TextIn(m, "name") && "type" in m && m["type"] == Str(t) && t in KNOWN_TYPES && Equipped(t, m)
    requires m.Keys == {"name", "type"} + Needs(t)
    ensures ValidateInterface(Obj(m), freshId) ==
            Ok(m["id" := Str(freshId)]["enabled" := Bool(true)]["mode" := Str("full")]["outgoing" := Bool(true)]
                ["reliable_cot" := Bool(t != "rnode")])
  {
    EquippedIsAcceptable(t, m);
    forall k | k in DEFAULTED ensures k !in m { DefaultsAreFree(t, k); }
    AllDefaults(m, freshId);
  }

  // ---------------------------------------------------------------- a whole configuration

  /** What two ids must differ in: equal numbers hash alike whatever their type. */
  function HashKey(v: Json): Option<Json> {
    match v
    case List(_) => None
    case Obj(_) => None
    case Bool(b) => Some(Int(if b then 1 else 0))
    case Float(r) => Some(if r.Floor as real == r then Int(r.Floor) else v)
    case _ => Some(v)
  }

  datatype Norm = Norm(entries: seq<Json>, ids: set<Json>, names: set<Json>)

  const NO_ENTRIES := Norm([], {}, {})

  type Checked = Result<Fields, Fault>

  function AddEntry(n: Norm, v: Checked): Result<Norm, Fault> {
    if v.Err? then Err(v.error) else
    var id, name := HashKey(Get(v.value, "id", Null)), Get(v.value, "name", Null);
    if id.None? then Err(Crash)
    else if id.value in n.ids || name in n.names then Err(Invalid)
    else Ok(Norm(n.entries + [Obj(v.value)], n.ids + {id.value}, n.names + {name}))
  }

  /** The loop over the entries, given what each one's own validation makes of it. */
  function AddAll(vs: seq<Checked>): Result<Norm, Fault> {
    if vs == [] then Ok(NO_ENTRIES) else
    var n := AddAll(vs[..|vs| - 1]);
    if n.Err? then n else AddEntry(n.value, vs[|vs| - 1])
  }

  function CheckEach(entries: seq<Json>, freshId: nat -> string): seq<Checked> {
    seq(|entries|, k requires 0 <= k < |entries| => ValidateInterface(entries[k], freshId(k)))
  }

  function Completed(cfg: Fields, entries: seq<Json>): Fields {
    SetDefault(SetDefault(SetDefault(cfg["interfaces" := List(entries)], "schema_version", Int(1)),
                          "cot_bridge", Obj(map[])), "peer_allowlist", List([]))
  }

  function ValidateConfig(cfg: Json, freshId: nat -> string): Result<Fields, Fault> {
    if !cfg.Obj? || !Get(cfg.fields, "interfaces", List([])).List? then Err(Invalid) else
    var n := AddAll(CheckEach(Get(cfg.fields, "interfaces", List([])).items, freshId));
    if n.Err? then Err(n.error) else Ok(Completed(cfg.fields, n.value.entries))
  }

  /** When the loop succeeds, every entry was valid and is listed as its validation left it. */
  lemma {:induction false} AddAllFacts(vs: seq<Checked>)
    requires AddAll(vs).Ok?
    ensures var es := AddAll(vs).value.entries;
            |es| == |vs| && forall i :: 0 <= i < |vs| ==> vs[i].Ok? && es[i] == Obj(vs[i].value)
  {
    if vs != [] {
      AddAllFacts(vs[..|vs| - 1]);
      assert forall i :: 0 <= i < |vs| - 1 ==> vs[..|vs| - 1][i] == vs[i];
    }
  }

  ghost predicate Holds(n: Norm, v: Fields) {
    && HashKey(Get(v, "id", Null)).Some? && HashKey(Get(v, "id", Null)).value in n.ids
    && Get(v, "name", Null) in n.names
  }

  lemma {:induction false} AddAllHolds(vs: seq<Checked>, i: nat)
    requires AddAll(vs).Ok? && i < |vs|
    ensures vs[i].Ok? && Holds(AddAll(vs).value, vs[i].value)
  {
    if i < |vs| - 1 {
      assert vs[..|vs| - 1][i] == vs[i];
      AddAllHolds(vs[..|vs| - 1], i);
    }
  }

  ghost predicate Apart(v: Fields, w: Fields) {
    HashKey(Get(v, "id", Null)) != HashKey(Get(w, "id", Null)) && Get(v, "name", Null) != Get(w, "name", Null)
  }

  /** The ids and names met so far are those of the entries, and no others. */
  lemma {:induction false} AddAllMeets(vs: seq<Checked>, x: Json)
    requires AddAll(vs).Ok?
    ensures x in AddAll(vs).value.ids <==> exists i :: 0 <= i < |vs| && vs[i].Ok? && HashKey(Get(vs[i].value, "id", Null)) == Some(x)
    ensures x in AddAll(vs).value.names <==> exists i :: 0 <= i < |vs| && vs[i].Ok? && Get(vs[i].value, "name", Null) == x
  {
    if vs != [] {
      var front, last := vs[..|vs| - 1], vs[|vs| - 1];
      AddAllMeets(front, x);
      assert forall i :: 0 <= i < |front| ==> front[i] == vs[i];
    }
  }

  /** A list of entries is accepted exactly when each is, no id is a list or an object, and no two
      share an id or a name. */
  lemma {:induction false} AcceptedIff(vs: seq<Checked>)
    ensures AddAll(vs).Ok? <==>
            && (forall i :: 0 <= i < |vs| ==> vs[i].Ok? && HashKey(Get(vs[i].value, "id", Null)).Some?)
            && (forall i, j :: 0 <= i < j < |vs| ==> Apart(vs[i].value, vs[j].value))
  {
    if vs != [] {
      var front, last := vs[..|vs| - 1], vs[|vs| - 1];
      AcceptedIff(front);
      assert forall i :: 0 <= i < |front| ==> front[i] == vs[i];
      assert vs == front + [last];
      if AddAll(front).Ok? && last.Ok? { LastIsApartIff(vs, front, last); }
      if AddAll(vs).Ok? {
        forall i, j | 0 <= i < j < |vs| ensures Apart(vs[i].value, vs[j].value) { NamesAreDistinct(vs, i, j); }
      }
    }
  }

  lemma AddEntryOkIff(n: Norm, v: Fields)
    ensures AddEntry(n, Ok(v)).Ok? <==>
            var id := HashKey(Get(v, "id", Null)); id.Some? && id.value !in n.ids && Get(v, "name", Null) !in n.names
    ensures AddEntry(n, Ok(v)) == Err(Crash) <==> Get(v, "id", Null).List? || Get(v, "id", Null).Obj?
  {
  }

  lemma AddAllSnoc(front: seq<Checked>, last: Checked)
    requires AddAll(front).Ok?
    ensures AddAll(front + [last]) == AddEntry(AddAll(front).value, last)
  {
    assert (front + [last])[..|front|] == front;
  }

  lemma LastIsApartIff(vs: seq<Checked>, front: seq<Checked>, last: Checked)
    requires vs == front + [last] && AddAll(front).Ok? && last.Ok? && forall i :: 0 <= i < |front| ==> front[i].Ok?
    ensures AddAll(vs).Ok? <==>
            HashKey(Get(last.value, "id", Null)).Some? && forall i :: 0 <= i < |front| ==> Apart(front[i].value, last.value)
  {
    AddAllSnoc(front, last);
    AddEntryOkIff(AddAll(front).value, last.value);
    var id, name := HashKey(Get(last.value, "id", Null)), Get(last.value, "name", Null);
    if id.Some? { ClashIff(front, id.value, name); }
  }

  lemma ClashIff(front: seq<Checked>, id: Json, name: Json)
    requires AddAll(front).Ok? && forall i :: 0 <= i < |front| ==> front[i].Ok?
    ensures id !in AddAll(front).value.ids && name !in AddAll(front).value.names <==>
            forall i :: 0 <= i < |front| ==> HashKey(Get(front[i].value, "id", Null)) != Some(id) && Get(front[i].value, "name", Null) != name
  {
    AddAllMeets(front, id);
    AddAllMeets(front, name);
  }

  /** Ids that Python takes for equal clash whatever their type: true, 1 and 1.0. */
  lemma EqualIdsClash(n: int, s: string)
    ensures HashKey(Bool(true)) == HashKey(Int(1)) == HashKey(Float(1.0)) && HashKey(Bool(false)) == HashKey(Int(0)) == HashKey(Float(0.0))
    ensures HashKey(Int(n)) == HashKey(Float(n as real)) && HashKey(Str(s)) != HashKey(Int(n)) && HashKey(Null) != HashKey(Int(n))
    ensures HashKey(List([])).None? && HashKey(Obj(map[])).None?
  {
  }

  /** What a validated configuration says where the given one says nothing. */
  lemma ConfigDefaults(cfg: Fields, entries: seq<Json>)
    ensures var r := Completed(cfg, entries);
            && r["interfaces"] == List(entries)
            && r["schema_version"] == (if "schema_version" in cfg then cfg["schema_version"] else Int(1))
            && r["cot_bridge"] == (if "cot_bridge" in cfg then cfg["cot_bridge"] else Obj(map[]))
            && r["peer_allowlist"] == (if "peer_allowlist" in cfg then cfg["peer_allowlist"] else List([]))
            && forall k :: k in cfg && k != "interfaces" ==> k in r && r[k] == cfg[k]
  {
  }

  /** No two entries of a validated configuration share an id or a name. */
  lemma {:induction false} NamesAreDistinct(vs: seq<Checked>, i: nat, j: nat)
    requires AddAll(vs).Ok? && i < j < |vs|
    ensures vs[i].Ok? && vs[j].Ok?
    ensures HashKey(Get(vs[i].value, "id", Null)) != HashKey(Get(vs[j].value, "id", Null))
    ensures Get(vs[i].value, "name", Null) != Get(vs[j].value, "name", Null)
  {
    var front := vs[..|vs| - 1];
    assert front[i] == vs[i];
    if j < |front| {
      assert front[j] == vs[j];
      NamesAreDistinct(front, i, j);
    } else {
      AddAllHolds(front, i);
    }
  }

  /** Validating the entries a validation has left changes none of them. */
  lemma CheckEachAgain(entries: seq<Json>, freshId: nat -> string, otherId: nat -> string, es: seq<Json>)
    requires |es| == |entries|
    requires forall i :: 0 <= i < |es| ==> ValidateInterface(entries[i], freshId(i)).Ok? &&
                                           es[i] == Obj(ValidateInterface(entries[i], freshId(i)).value)
    ensures CheckEach(es, otherId) == CheckEach(entries, freshId)
    ensures forall i :: 0 <= i < |es| ==> es[i].Obj? && Acceptable(es[i].fields)
  {
    forall i | 0 <= i < |es|
      ensures CheckEach(es, otherId)[i] == CheckEach(entries, freshId)[i] && Acceptable(es[i].fields)
    {
      InterfaceIdempotent(entries[i], freshId(i), otherId(i));
      NormalisedAcceptable(entries[i].fields, freshId(i));
    }
  }

  lemma EntriesAgain(entries: seq<Json>, freshId: nat -> string, otherId: nat -> string)
    requires AddAll(CheckEach(entries, freshId)).Ok?
    ensures var es := AddAll(CheckEach(entries, freshId)).value.entries;
            && CheckEach(es, otherId) == CheckEach(entries, freshId)
            && forall i :: 0 <= i < |es| ==> es[i].Obj? && Acceptable(es[i].fields)
  {
    var vs := CheckEach(entries, freshId);
    AddAllFacts(vs);
    var es := AddAll(vs).value.entries;
    forall i | 0 <= i < |es| ensures ValidateInterface(entries[i], freshId(i)).Ok? &&
                                     es[i] == Obj(ValidateInterface(entries[i], freshId(i)).value)
    {
      assert vs[i] == ValidateInterface(entries[i], freshId(i));
    }
    CheckEachAgain(entries, freshId, otherId, es);
  }

  lemma CompletedAgain(cfg: Fields, es: seq<Json>)
    ensures var out := Completed(cfg, es);
            "interfaces" in out && out["interfaces"] == List(es) && Completed(out, es) == out
  {
  }

  /** Validation leaves its own output alone, whatever names it would mint. */
  lemma ValidationIdempotent(cfg: Json, freshId: nat -> string, otherId: nat -> string)
    requires ValidateConfig(cfg, freshId).Ok?
    ensures var out := ValidateConfig(cfg, freshId).value; ValidateConfig(Obj(out), otherId) == Ok(out)
  {
    var entries := Get(cfg.fields, "interfaces", List([])).items;
    EntriesAgain(entries, freshId, otherId);
    CompletedAgain(cfg.fields, AddAll(CheckEach(entries, freshId)).value.entries);
  }

  /** What callers rely on in a validated configuration. */
  ghost predicate Sound(cfg: Fields) {
    && "interfaces" in cfg && cfg["interfaces"].List?
    && forall i :: 0 <= i < |cfg["interfaces"].items| ==>
         cfg["interfaces"].items[i].Obj? && Acceptable(cfg["interfaces"].items[i].fields)
  }

  lemma ValidatedIsSound(cfg: Json, freshId: nat -> string)
    requires ValidateConfig(cfg, freshId).Ok?
    ensures Sound(ValidateConfig(cfg, freshId).value)
  {
    var entries := Get(cfg.fields, "interfaces", List([])).items;
    EntriesAgain(entries, freshId, freshId);
    CompletedAgain(cfg.fields, AddAll(CheckEach(entries, freshId)).value.entries);
  }

  // ---------------------------------------------------------------- the loops of the source

  method CheckFields(m: Fields, fields: seq<Field>) returns (ok: bool)
    ensures ok == FieldsOk(m, fields)
  {
    for i := 0 to |fields|
      invariant forall k :: 0 <= k < i ==> FieldOk(m, fields[k])
    {
      var f := fields[i];
      if f.name !in m {
        if f.required { return false; }
      } else if !Passes(f.check, m[f.name]) {
        return false;
      }
    }
    ok := true;
  }

  method CheckKeys(m: Fields, special: seq<Field>) returns (ok: bool)
    ensures ok == KeysKnown(m, special)
  {
    var rest := m.Keys;
    while rest != {}
      invariant rest <= m.Keys
      invariant forall k :: k in m && k !in rest ==> Names(COMMON, k) || Names(special, k)
      decreases rest
    {
      var k :| k in rest;
      if !Names(COMMON, k) && !Names(special, k) { return false; }
      rest := rest - {k};
    }
    ok := true;
  }

  method CheckInterface(entry: Json, freshId: string) returns (r: Checked)
    ensures r == ValidateInterface(entry, freshId)
  {
    if !entry.Obj? { return Err(Invalid); }
    var m := entry.fields;
    if Unhashable(TypeOf(m)) { return Err(Crash); }
    if Special(m).None? { return Err(Invalid); }
    var known := CheckKeys(m, Special(m).value);
    if !known { return Err(Invalid); }
    var common := CheckFields(m, COMMON);
    if !common { return Err(Invalid); }
    var special := CheckFields(m, Special(m).value);
    if !special { return Err(Invalid); }
    r := Ok(Normalised(m, freshId));
  }

  lemma {:induction false} FirstErrorWins(vs: seq<Checked>, i: nat)
    requires i <= |vs| && AddAll(vs[..i]).Err?
    ensures AddAll(vs) == AddAll(vs[..i])
    decreases |vs|
  {
    if i == |vs| {
      assert vs[..i] == vs;
    } else {
      assert vs[..|vs| - 1][..i] == vs[..i];
      FirstErrorWins(vs[..|vs| - 1], i);
    }
  }

  lemma AddAllStep(vs: seq<Checked>, i: nat)
    requires i < |vs| && AddAll(vs[..i]).Ok?
    ensures AddAll(vs[..i + 1]) == AddEntry(AddAll(vs[..i]).value, vs[i])
    ensures AddAll(vs[..i + 1]).Err? ==> AddAll(vs) == AddAll(vs[..i + 1])
  {
    assert vs[..i + 1][..i] == vs[..i];
    if AddAll(vs[..i + 1]).Err? { FirstErrorWins(vs, i + 1); }
  }

  method CheckEntries(entries: seq<Json>, freshId: nat -> string) returns (r: Result<Norm, Fault>)
    ensures r == AddAll(CheckEach(entries, freshId))
  {
    ghost var vs := CheckEach(entries, freshId);
    var n := NO_ENTRIES;
    for i := 0 to |entries|
      invariant AddAll(vs[..i]) == Ok(n)
    {
      AddAllStep(vs, i);
      var v := CheckInterface(entries[i], freshId(i));
      if v.Err? { return Err(v.error); }
      var id, name := HashKey(Get(v.value, "id", Null)), Get(v.value, "name", Null);
      if id.None? { return Err(Crash); }
      if id.value in n.ids || name in n.names { return Err(Invalid); }
      n := Norm(n.entries + [Obj(v.value)], n.ids + {id.value}, n.names + {name});
    }
    assert vs[..|entries|] == vs;
    r := Ok(n);
  }

  method CheckConfig(cfg: Json, freshId: nat -> string) returns (r: Result<Fields, Fault>)
    ensures r == ValidateConfig(cfg, freshId)
  {
    if !cfg.Obj? { return Err(Invalid); }
    var interfaces := Get(cfg.fields, "interfaces", List([]));
    if !interfaces.List? { return Err(Invalid); }
    var n := CheckEntries(interfaces.items, freshId);
    if n.Err? { return Err(n.error); }
    r := Ok(Completed(cfg.fields, n.value.entries));
  }
}
