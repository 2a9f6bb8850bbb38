/** The hello, time and state records of apps/sendspin/sendspin_protocol.c, as JSON values and as the text
    that its builders write. */
module SendspinMessages {
  import opened Common
  import opened JsonText
  import opened JsonPrint
  import opened JsonLayout
  import opened JsonWriter

  predicate Plain(s: string) {
    forall i :: 0 <= i < |s| ==> s[i] as int >= 0x20 && s[i] != '\"' && s[i] != '\\'
  }

  lemma {:induction false} PlainEscape(s: string)
    requires Plain(s)
    ensures Escape(s) == s && Quote(s) == "\"" + s + "\""
    decreases |s|
  {
    if s != [] {
      PlainEscape(s[1..]);
      assert s == [s[0]] + s[1..];
    }
  }

  lemma {:induction false} FieldsSnoc(fs: seq<Entry>, e: Entry)
    ensures PrintFields(fs + [e]) == PrintFields(fs) + (if fs == [] then "" else ",") + PrintEntry(e)
    decreases |fs|
  {
    hide PrintEntry;
    if fs == [] {
      assert fs + [e] == [e];
      assert PrintFields([e]) == PrintEntry(e);
    } else {
      assert (fs + [e])[1..] == fs[1..] + [e];
      FieldsSnoc(fs[1..], e);
      if |fs| > 1 {
        assert PrintFields(fs) == PrintEntry(fs[0]) + ([','] + PrintFields(fs[1..]));
      }
    }
  }

  lemma {:induction false} ItemsSnoc(items: seq<Json>, j: Json)
    ensures PrintItems(items + [j]) == PrintItems(items) + (if items == [] then "" else ",") + Print(j)
    decreases |items|
  {
    hide Print;
    if items == [] {
      assert items + [j] == [j];
      assert PrintItems([j]) == Print(j);
    } else {
      assert (items + [j])[1..] == items[1..] + [j];
      ItemsSnoc(items[1..], j);
      if |items| > 1 {
        assert PrintItems(items) == Print(items[0]) + ([','] + PrintItems(items[1..]));
      }
    }
  }

  // The text of an object still being written: `before`, its brace and its fields so far.
  function Partial(before: string, fs: seq<Entry>): string {
    before + "{" + PrintFields(fs)
  }

  // A key and its colon, with the comma that separates it from what came before.
  function KeyText(fs: seq<Entry>, key: string): string {
    (if fs == [] then "\"" else ",\"") + key + "\":"
  }

  // Writing a key and a value adds a field.
  lemma AddField(before: string, fs: seq<Entry>, key: string, v: Json)
    requires Plain(key)
    ensures Partial(before, fs) + KeyText(fs, key) + Print(v) == Partial(before, fs + [Entry(key, v)])
  {
    hide Print, PrintFields, Escape;
    PlainEscape(key);
    FieldsSnoc(fs, Entry(key, v));
    assert PrintEntry(Entry(key, v)) == "\"" + key + "\"" + ":" + Print(v);
    assert (if fs == [] then "" else ",") + PrintEntry(Entry(key, v)) == KeyText(fs, key) + Print(v);
    var p, c, e := PrintFields(fs), if fs == [] then "" else ",", PrintEntry(Entry(key, v));
    assert before + "{" + (p + c + e) == before + "{" + p + (c + e);
    assert before + "{" + p + (KeyText(fs, key) + Print(v)) == before + "{" + p + KeyText(fs, key) + Print(v);
  }

  // The closing brace completes the object.
  lemma CloseObject(before: string, fs: seq<Entry>)
    ensures Partial(before, fs) + "}" == before + Print(Obj(fs))
  {
    hide PrintFields;
    assert before + "{" + PrintFields(fs) + "}" == before + ("{" + PrintFields(fs) + "}");
  }

  // Every message is {"payload":{...},"type":"..."}.
  function Envelope(payload: seq<Entry>, kind: string): Json {
    Obj([Entry("payload", Obj(payload)), Entry("type", Str(kind))])
  }

  const OPENING: string := "{\"payload\":"

  lemma StartEnvelope()
    ensures Partial("", []) + KeyText([], "payload") == OPENING && Plain("payload") && Plain("type")
  {
  }

  function Ending(kind: string): string {
    "},\"type\":\"" + kind + "\"}"
  }

  lemma EndEnvelope(payload: seq<Entry>, kind: string)
    requires Plain(kind)
    ensures Partial(OPENING, payload) + Ending(kind) == Print(Envelope(payload, kind))
  {
    hide Partial, Escape, Plain, PrintFields;
    StartEnvelope();
    var fs := [Entry("payload", Obj(payload))];
    var g := Partial(OPENING, payload);
    TypeText(kind);
    PlainEscape(kind);
    var colon := KeyText(fs, "type");
    assert g + Ending(kind) == g + "}" + colon + Quote(kind) + "}" by {
      assert g + ("}" + colon + Quote(kind) + "}") == g + "}" + colon + Quote(kind) + "}";
    }
    CloseObject(OPENING, payload);
    AddField("", [], "payload", Obj(payload));
    assert [] + fs == fs;
    AddField("", fs, "type", Str(kind));
    var all := fs + [Entry("type", Str(kind))];
    CloseObject("", all);
    assert "" + Print(Obj(all)) == Print(Obj(all));
    assert all == [Entry("payload", Obj(payload)), Entry("type", Str(kind))];
  }

  lemma TypeText(kind: string)
    requires Plain(kind)
    ensures Ending(kind) == "}" + KeyText([Entry("payload", Null)], "type") + Quote(kind) + "}"
  {
    hide Plain;
    PlainEscape(kind);
    assert KeyText([Entry("payload", Null)], "type") == ",\"type\":";
    assert "},\"type\":\"" == "}" + ",\"type\":" + "\"";
  }

  // eaf_sendspin_player_state_t.
  datatype PlayerState = PlayerState(volume: i32, muted: bool, staticDelayMs: i32, requiredLeadTimeMs: i32, minBufferMs: i32)

  function TimeJson(transmitted: int): Json {
    Envelope([Entry("client_transmitted", Num(transmitted))], "client/time")
  }

  // eaf_sendspin_build_client_time.
  method BuildTime(dst: array<char>, transmitted: i64) returns (rc: int, written: nat)
    modifies dst
    ensures var text := Print(TimeJson(transmitted));
      if dst.Length > 0 && |text| <= dst.Length then rc == OK && written == |text| && dst[..written] == text else rc == INVALID
  {
    hide Print, Integer, Partial, Quote, PrintFields;
    written := 0;
    if dst.Length == 0 {
      return INVALID, written;
    }
    var w := new Writer(dst);
    w.Raw("{\"payload\":{\"client_transmitted\":");
    TimeStart();
    TimeEnding();
    w.Signed(transmitted);
    w.Raw("},\"type\":\"client/time\"}");
    assert w.goal == Print(TimeJson(transmitted)) by { TimeText(w.goal, transmitted); }
    rc, written := Finish(w);
  }

  // finish.
  method Finish(w: Writer) returns (rc: int, written: nat)
    requires w.Valid()
    ensures if |w.goal| <= w.buf.Length then rc == OK && written == |w.goal| && w.buf[..written] == w.goal else rc == INVALID
  {
    written := 0;
    if !w.ok {
      return INVALID, written;
    }
    written := w.used;
    rc := OK;
  }

  lemma TimeStart()
    ensures "{\"payload\":{\"client_transmitted\":" == Partial(OPENING, []) + KeyText([], "client_transmitted")
  {
  }

  lemma TimeEnding()
    ensures Plain("client_transmitted") && Plain("client/time") && "},\"type\":\"client/time\"}" == Ending("client/time")
  {
  }

  lemma TimeText(w: string, t: int)
    requires w == "{\"payload\":{\"client_transmitted\":" + Integer(t) + "},\"type\":\"client/time\"}"
    ensures w == Print(TimeJson(t))
  {
    hide Integer, Print, PrintFields, Partial, KeyText, Ending, Plain;
    TimeStart();
    TimeEnding();
    PrintNum(t);
    AddField(OPENING, [], "client_transmitted", Num(t));
    assert [] + [Entry("client_transmitted", Num(t))] == [Entry("client_transmitted", Num(t))];
    EndEnvelope([Entry("client_transmitted", Num(t))], "client/time");
  }

  lemma PrintNum(n: int)
    ensures Print(Num(n)) == Integer(n)
  {
  }

  // A key, its colon and a value of an object that is being written.
  method NumberField(w: Writer, literal: string, value: i64, ghost before: string, ghost fs: seq<Entry>, ghost key: string)
    requires w.Valid() && w.goal == Partial(before, fs) && literal == KeyText(fs, key) && Plain(key)
    modifies w, w.buf
    ensures w.Valid() && w.goal == Partial(before, fs + [Entry(key, Num(value))])
  {
    hide Partial, KeyText, Plain, Integer;
    w.Raw(literal);
    w.Signed(value);
    PrintNum(value);
    AddField(before, fs, key, Num(value));
  }

  method StringField(w: Writer, literal: string, value: string, ghost before: string, ghost fs: seq<Entry>, ghost key: string)
    requires w.Valid() && w.goal == Partial(before, fs) && literal == KeyText(fs, key) && Plain(key)
    modifies w, w.buf
    ensures w.Valid() && w.goal == Partial(before, fs + [Entry(key, Str(value))])
  {
    hide Partial, KeyText, Plain, Quote;
    w.Raw(literal);
    w.String(value);
    AddField(before, fs, key, Str(value));
  }

  function StateFields(s: PlayerState): seq<Entry> {
    [Entry("state", Str("synchronized")), Entry("volume", Num(s.volume)), Entry("muted", Bool(s.muted)),
     Entry("static_delay_ms", Num(s.staticDelayMs)), Entry("required_lead_time_ms", Num(s.requiredLeadTimeMs)),
     Entry("min_buffer_ms", Num(s.minBufferMs))]
  }

  function StateJson(s: PlayerState): Json {
    Envelope([Entry("player", Obj(StateFields(s)))], "client/state")
  }

  const PLAYER: string := "{\"payload\":{\"player\":"
  const SYNCHRONIZED: Entry := Entry("state", Str("synchronized"))

  lemma StateStart()
    ensures "{\"payload\":{\"player\":{\"state\":\"synchronized\"" == Partial(PLAYER, [SYNCHRONIZED])
    ensures PLAYER == Partial(OPENING, []) + KeyText([], "player")
  {
    hide Escape, PrintFields;
    assert Plain("state") && Plain("synchronized");
    PlainEscape("synchronized");
    AddField(PLAYER, [], "state", Str("synchronized"));
    assert [] + [SYNCHRONIZED] == [SYNCHRONIZED];
    assert PrintFields([]) == "" by { NoFields(); }
    assert Partial(PLAYER, []) + KeyText([], "state") + Print(Str("synchronized"))
        == "{\"payload\":{\"player\":{\"state\":\"synchronized\"";
  }

  lemma StateLiterals(fs: seq<Entry>)
    requires fs != []
    ensures KeyText(fs, "volume") == ",\"volume\":" && KeyText(fs, "muted") == ",\"muted\":"
    ensures KeyText(fs, "static_delay_ms") == ",\"static_delay_ms\":"
  {
  }

  lemma LatencyLiterals(fs: seq<Entry>)
    requires fs != []
    ensures KeyText(fs, "required_lead_time_ms") == ",\"required_lead_time_ms\":"
    ensures KeyText(fs, "min_buffer_ms") == ",\"min_buffer_ms\":"
  {
  }

  lemma StateKeys()
    ensures Plain("volume") && Plain("muted") && Plain("static_delay_ms") && Plain("required_lead_time_ms") && Plain("min_buffer_ms")
  {
  }

  lemma StateEnding()
    ensures Plain("player") && Plain("client/state")
    ensures "}},\"type\":\"client/state\"}" == "}" + Ending("client/state")
  {
  }

  // eaf_sendspin_build_client_state.
  method BuildState(dst: array<char>, s: PlayerState) returns (rc: int, written: nat)
    modifies dst
    ensures var text := Print(StateJson(s));
      if dst.Length > 0 && |text| <= dst.Length then rc == OK && written == |text| && dst[..written] == text else rc == INVALID
  {
    hide Print, Integer, Partial, Quote, PrintFields, KeyText, Plain, Ending;
    written := 0;
    if dst.Length == 0 {
      return INVALID, written;
    }
    var w := new Writer(dst);
    StateStart();
    StateKeys();
    w.Raw("{\"payload\":{\"player\":{\"state\":\"synchronized\"");
    ghost var fs := [SYNCHRONIZED];
    StateLiterals(fs);
    NumberField(w, ",\"volume\":", s.volume, PLAYER, fs, "volume");
    fs := fs + [Entry("volume", Num(s.volume))];
    w.Raw(",\"muted\":");
    w.Raw(if s.muted then "true" else "false");
    StateLiterals(fs);
    PrintBool(s.muted);
    AddField(PLAYER, fs, "muted", Bool(s.muted));
    fs := fs + [Entry("muted", Bool(s.muted))];
    StateLiterals(fs);
    NumberField(w, ",\"static_delay_ms\":", s.staticDelayMs, PLAYER, fs, "static_delay_ms");
    fs := fs + [Entry("static_delay_ms", Num(s.staticDelayMs))];
    LatencyLiterals(fs);
    NumberField(w, ",\"required_lead_time_ms\":", s.requiredLeadTimeMs, PLAYER, fs, "required_lead_time_ms");
    fs := fs + [Entry("required_lead_time_ms", Num(s.requiredLeadTimeMs))];
    LatencyLiterals(fs);
    NumberField(w, ",\"min_buffer_ms\":", s.minBufferMs, PLAYER, fs, "min_buffer_ms");
    fs := fs + [Entry("min_buffer_ms", Num(s.minBufferMs))];
    assert fs == StateFields(s);
    w.Raw("}},\"type\":\"client/state\"}");
    StateEnd(w.goal, s);
    rc, written := Finish(w);
  }

  lemma PrintBool(b: bool)
    ensures Print(Bool(b)) == if b then "true" else "false"
  {
  }

  lemma StateEnd(w: string, s: PlayerState)
    requires w == Partial(PLAYER, StateFields(s)) + "}},\"type\":\"client/state\"}"
    ensures w == Print(StateJson(s))
  {
    hide Print, Partial, PrintFields, KeyText, Plain, Ending;
    StateStart();
    StateEnding();
    var fs, e := StateFields(s), Ending("client/state");
    assert w == Partial(PLAYER, fs) + "}" + e;
    CloseObject(PLAYER, fs);
    AddField(OPENING, [], "player", Obj(fs));
    assert [] + [Entry("player", Obj(fs))] == [Entry("player", Obj(fs))];
    EndEnvelope([Entry("player", Obj(fs))], "client/state");
  }

  datatype Codec = UnknownCodec | Pcm | Flac | Opus | Mp3 | Vorbis

  function CodecName(c: Codec): (r: Option<string>)
    ensures r.Some? ==> Plain(r.value)
  {
    match c
    case Pcm => Some("pcm")
    case Flac => Some("flac")
    case Opus => Some("opus")
    case Mp3 => Some("mp3")
    case Vorbis => Some("vorbis")
    case UnknownCodec => None
  }

  // eaf_sendspin_format_t and eaf_sendspin_client_hello_t; an absent string or format list is None or empty.
  datatype AudioFormat = AudioFormat(codec: Codec, sampleRate: u32, channels: u8, bitDepth: u8)
  datatype Hello = Hello(
    clientId: string, name: string, product: Option<string>, manufacturer: Option<string>, software: Option<string>,
    formats: seq<AudioFormat>, sampleRate: u32, channels: u8, bitDepth: u8,
    bufferCapacity: u32, supportVolume: bool, supportMute: bool)

  function FormatFields(f: AudioFormat): seq<Entry>
    requires CodecName(f.codec).Some?
  {
    [Entry("codec", Str(CodecName(f.codec).value)), Entry("channels", Num(f.channels)), Entry("sample_rate", Num(f.sampleRate))]
    + if f.codec == Pcm && f.bitDepth != 0 then [Entry("bit_depth", Num(f.bitDepth))] else []
  }

  // The advertised formats that have a name.
  function NamedFormats(fs: seq<AudioFormat>): seq<Json>
    decreases |fs|
  {
    if fs == [] then []
    else
      var last := fs[|fs| - 1];
      NamedFormats(fs[..|fs| - 1]) + if CodecName(last.codec) == None then [] else [Obj(FormatFields(last))]
  }

  function Fallback(h: Hello): AudioFormat {
    AudioFormat(Pcm, h.sampleRate, h.channels, h.bitDepth)
  }

  function FormatItems(h: Hello): seq<Json> {
    if NamedFormats(h.formats) == [] then [Obj(FormatFields(Fallback(h)))] else NamedFormats(h.formats)
  }

  function Commands(h: Hello): seq<Json> {
    (if h.supportVolume then [Str("volume")] else []) + (if h.supportMute then [Str("mute")] else [])
  }

  function Given(key: string, value: Option<string>): seq<Entry> {
    if value.Some? then [Entry(key, Str(value.value))] else []
  }

  function DeviceFields(h: Hello): seq<Entry> {
    Given("product_name", h.product) + Given("manufacturer", h.manufacturer) + Given("software_version", h.software)
  }

  function SupportFields(h: Hello): seq<Entry> {
    [Entry("supported_formats", Arr(FormatItems(h))), Entry("buffer_capacity", Num(h.bufferCapacity)),
     Entry("supported_commands", Arr(Commands(h)))]
  }

  function IdentityFields(h: Hello): seq<Entry> {
    [Entry("client_id", Str(h.clientId)), Entry("name", Str(h.name)), Entry("version", Num(1)),
     Entry("supported_roles", Arr([Str("player@v1")]))]
  }

  function HelloFields(h: Hello): seq<Entry> {
    IdentityFields(h) + (if DeviceFields(h) == [] then [] else [Entry("device_info", Obj(DeviceFields(h)))])
    + [Entry("player@v1_support", Obj(SupportFields(h)))]
  }

  function HelloJson(h: Hello): Json {
    Envelope(HelloFields(h), "client/hello")
  }

  lemma FormatLiterals(before: string, name: string, fs: seq<Entry>)
    requires Plain(name)
    ensures before + "{\"codec\":" == Partial(before, []) + KeyText([], "codec")
    ensures Plain("codec") && Plain("channels") && Plain("sample_rate") && Plain("bit_depth")
    ensures fs != [] ==>
      KeyText(fs, "channels") == ",\"channels\":" && KeyText(fs, "sample_rate") == ",\"sample_rate\":" && KeyText(fs, "bit_depth") == ",\"bit_depth\":"
  {
    hide PrintFields;
    NoFields();
    assert before + "{" + "" + "\"codec\":" == before + "{\"codec\":";
  }

  // write_format.
  method WriteFormat(w: Writer, f: AudioFormat)
    requires w.Valid() && CodecName(f.codec).Some?
    modifies w, w.buf
    ensures w.Valid() && w.goal == old(w.goal) + Print(Obj(FormatFields(f)))
  {
    hide Partial, KeyText, Plain, Quote, Integer, Print, CodecName;
    var name := CodecName(f.codec).value;
    ghost var before := w.goal;
    w.Raw("{\"codec\":");
    FormatLiterals(before, name, []);
    w.String(name);
    PrintStr(name);
    AddField(before, [], "codec", Str(name));
    ghost var fs := [] + [Entry("codec", Str(name))];
    FormatLiterals(before, name, fs);
    NumberField(w, ",\"channels\":", f.channels, before, fs, "channels");
    fs := fs + [Entry("channels", Num(f.channels))];
    FormatLiterals(before, name, fs);
    NumberField(w, ",\"sample_rate\":", f.sampleRate, before, fs, "sample_rate");
    fs := fs + [Entry("sample_rate", Num(f.sampleRate))];
    if f.codec == Pcm && f.bitDepth != 0 {
      FormatLiterals(before, name, fs);
      NumberField(w, ",\"bit_depth\":", f.bitDepth, before, fs, "bit_depth");
      fs := fs + [Entry("bit_depth", Num(f.bitDepth))];
    }
    assert fs == FormatFields(f);
    CloseObject(before, fs);
    w.Raw("}");
  }

  lemma PrintStr(s: string)
    ensures Print(Str(s)) == Quote(s)
  {
  }

  // The text of an array still being written.
  function PartialArray(before: string, items: seq<Json>): string {
    before + "[" + PrintItems(items)
  }

  lemma AddItem(before: string, items: seq<Json>, j: Json)
    ensures PartialArray(before, items) + (if items == [] then "" else ",") + Print(j) == PartialArray(before, items + [j])
  {
    hide Print, PrintItems;
    ItemsSnoc(items, j);
    var p, c := PrintItems(items), if items == [] then "" else ",";
    assert before + "[" + (p + c + Print(j)) == before + "[" + p + c + Print(j);
  }

  lemma CloseArray(before: string, items: seq<Json>)
    ensures PartialArray(before, items) + "]" == before + Print(Arr(items))
  {
    hide PrintItems;
    assert before + "[" + PrintItems(items) + "]" == before + ("[" + PrintItems(items) + "]");
  }

  lemma PcmHasName()
    ensures CodecName(Pcm).Some?
  {
  }

  // The loop over the advertised formats, and the single one it falls back to.
  method WriteFormats(w: Writer, h: Hello, ghost before: string)
    requires w.Valid() && w.goal == PartialArray(before, [])
    modifies w, w.buf
    ensures w.Valid() && w.goal == PartialArray(before, FormatItems(h))
  {
    hide PartialArray, FormatFields, Print, CodecName;
    var emitted, i := 0, 0;
    while i < |h.formats|
      invariant i <= |h.formats| && w.Valid() && emitted == |NamedFormats(h.formats[..i])|
      invariant w.goal == PartialArray(before, NamedFormats(h.formats[..i]))
    {
      ghost var items := NamedFormats(h.formats[..i]);
      assert h.formats[..i + 1][..i] == h.formats[..i];
      if CodecName(h.formats[i].codec).Some? {
        AddItem(before, items, Obj(FormatFields(h.formats[i])));
        if emitted > 0 {
          w.Raw(",");
        }
        emitted := emitted + 1;
        assert items == [] ==> w.goal + "" == w.goal;
        WriteFormat(w, h.formats[i]);
      }
      assert items + [] == items;
      i := i + 1;
    }
    assert h.formats[..i] == h.formats;
    if emitted == 0 {
      PcmHasName();
      AddItem(before, [], Obj(FormatFields(Fallback(h))));
      assert w.goal + "" == w.goal;
      WriteFormat(w, Fallback(h));
      assert [] + [Obj(FormatFields(Fallback(h)))] == FormatItems(h);
    }
  }

  lemma HelloStart(h: Hello)
    ensures "{\"payload\":{\"client_id\":" == Partial(OPENING, []) + KeyText([], "client_id")
    ensures Plain("client_id") && Plain("name") && KeyText([Entry("client_id", Str(h.clientId))], "name") == ",\"name\":"
  {
    hide PrintFields;
    NoFields();
  }

  const ROLES: string := ",\"version\":1,\"supported_roles\":[\"player@v1\"]"

  lemma RolesText(fs: seq<Entry>)
    requires fs != []
    ensures Partial(OPENING, fs) + ROLES == Partial(OPENING, fs + [Entry("version", Num(1)), Entry("supported_roles", Arr([Str("player@v1")]))])
  {
    hide Partial, Print, Plain, PrintItems;
    var gs := fs + [Entry("version", Num(1))];
    RolesKeys(fs, gs);
    AddField(OPENING, fs, "version", Num(1));
    AddField(OPENING, gs, "supported_roles", Arr([Str("player@v1")]));
    assert gs + [Entry("supported_roles", Arr([Str("player@v1")]))]
        == fs + [Entry("version", Num(1)), Entry("supported_roles", Arr([Str("player@v1")]))];
    var g, a, b, c, d := Partial(OPENING, fs), KeyText(fs, "version"), "1", KeyText(gs, "supported_roles"), "[\"player@v1\"]";
    assert g + (a + b + c + d) == g + a + b + c + d;
  }

  lemma RolesKeys(fs: seq<Entry>, gs: seq<Entry>)
    requires fs != [] && gs != []
    ensures Plain("version") && Plain("supported_roles")
    ensures Print(Num(1)) == "1" && Print(Arr([Str("player@v1")])) == "[\"player@v1\"]"
    ensures ROLES == KeyText(fs, "version") + "1" + KeyText(gs, "supported_roles") + "[\"player@v1\"]"
  {
    hide Print, KeyText, Plain;
    RolePrints();
    OnePrints();
    RolesNames();
    VersionText(fs);
    RolesKeyText(gs);
  }

  lemma OnePrints()
    ensures Print(Num(1)) == "1"
  {
  }

  lemma RolesNames()
    ensures Plain("version") && Plain("supported_roles")
  {
  }

  lemma VersionText(fs: seq<Entry>)
    requires fs != []
    ensures KeyText(fs, "version") == ",\"version\":"
  {
  }

  lemma RolesKeyText(fs: seq<Entry>)
    requires fs != []
    ensures KeyText(fs, "supported_roles") == ",\"supported_roles\":"
  {
  }

  lemma RolePrints()
    ensures Print(Arr([Str("player@v1")])) == "[\"player@v1\"]"
  {
    hide Escape, PrintItems, Print, Quote, Plain;
    RoleIsPlain();
    PlainEscape("player@v1");
    OneItem(Str("player@v1"));
    PrintStr("player@v1");
    PrintArr([Str("player@v1")]);
    assert "[" + ("\"" + "player@v1" + "\"") + "]" == "[\"player@v1\"]";
  }

  lemma RoleIsPlain()
    ensures Plain("player@v1")
  {
  }

  lemma PrintArr(items: seq<Json>)
    ensures Print(Arr(items)) == "[" + PrintItems(items) + "]"
  {
  }

  lemma OneItem(j: Json)
    ensures PrintItems([j]) == Print(j)
  {
  }

  lemma DeviceNames()
    ensures Plain("product_name") && Plain("manufacturer") && Plain("software_version") && Plain("device_info")
  {
  }

  lemma DeviceKeys(fs: seq<Entry>)
    ensures fs == [] ==> KeyText(fs, "product_name") == "\"product_name\":"
    ensures fs != [] ==> KeyText(fs, "device_info") + "{" == ",\"device_info\":{"
  {
  }

  lemma MakerKeys(fs: seq<Entry>)
    ensures KeyText(fs, "manufacturer") == if fs != [] then ",\"manufacturer\":" else "\"manufacturer\":"
  {
  }

  lemma SoftwareKeys(fs: seq<Entry>)
    ensures KeyText(fs, "software_version") == if fs != [] then ",\"software_version\":" else "\"software_version\":"
  {
  }

  lemma NoFieldsYet(before: string)
    ensures before + "{" == Partial(before, [])
  {
    NoFields();
    assert before + "{" + "" == before + "{";
  }

  // The optional device_info object.
  method WriteDevice(w: Writer, h: Hello, ghost fs: seq<Entry>)
    requires w.Valid() && w.goal == Partial(OPENING, fs) && fs != []
    modifies w, w.buf
    ensures w.Valid() && w.goal == Partial(OPENING, fs + if DeviceFields(h) == [] then [] else [Entry("device_info", Obj(DeviceFields(h)))])
  {
    hide Partial, KeyText, Plain, Print, PrintFields;
    DeviceNames();
    if h.product.Some? || h.manufacturer.Some? || h.software.Some? {
      ghost var before := w.goal + KeyText(fs, "device_info");
      DeviceKeys(fs);
      w.Raw(",\"device_info\":{");
      assert w.goal == before + "{";
      NoFieldsYet(before);
      var comma := false;
      ghost var ds: seq<Entry> := [];
      if h.product.Some? {
        DeviceKeys(ds);
        StringField(w, "\"product_name\":", h.product.value, before, ds, "product_name");
        ds := ds + [Entry("product_name", Str(h.product.value))];
        comma := true;
      }
      if h.manufacturer.Some? {
        MakerKeys(ds);
        StringField(w, if comma then ",\"manufacturer\":" else "\"manufacturer\":", h.manufacturer.value, before, ds, "manufacturer");
        ds := ds + [Entry("manufacturer", Str(h.manufacturer.value))];
        comma := true;
      }
      if h.software.Some? {
        SoftwareKeys(ds);
        StringField(w, if comma then ",\"software_version\":" else "\"software_version\":", h.software.value, before, ds, "software_version");
        ds := ds + [Entry("software_version", Str(h.software.value))];
      }
      assert ds == DeviceFields(h);
      CloseObject(before, ds);
      w.Raw("}");
      AddField(OPENING, fs, "device_info", Obj(ds));
    } else {
      assert fs + [] == fs;
    }
  }

  lemma SupportNames()
    ensures Plain("player@v1_support") && Plain("supported_formats") && Plain("buffer_capacity") && Plain("supported_commands")
  {
  }

  lemma SupportKey(fs: seq<Entry>)
    requires fs != []
    ensures KeyText(fs, "player@v1_support") == ",\"player@v1_support\":"
  {
  }

  lemma FormatsKey()
    ensures KeyText([], "supported_formats") == "\"supported_formats\":"
  {
  }

  lemma BufferKey(fs: seq<Entry>)
    requires fs != []
    ensures KeyText(fs, "buffer_capacity") == ",\"buffer_capacity\":"
  {
  }

  lemma CommandsKey(fs: seq<Entry>)
    requires fs != []
    ensures KeyText(fs, "supported_commands") == ",\"supported_commands\":"
  {
  }

  // The array of supported commands.
  method WriteCommands(w: Writer, h: Hello, ghost before: string)
    requires w.Valid() && w.goal == PartialArray(before, [])
    modifies w, w.buf
    ensures w.Valid() && w.goal == PartialArray(before, Commands(h))
  {
    hide PartialArray, Print, Escape;
    CommandText();
    AddItem(before, [], Str("volume"));
    AddItem(before, [], Str("mute"));
    AddItem(before, [Str("volume")], Str("mute"));
    assert w.goal + "" == w.goal;
    if h.supportVolume {
      w.Raw("\"volume\"");
      assert [] + [Str("volume")] == [Str("volume")];
      if h.supportMute {
        w.Raw(",");
      }
    }
    if h.supportMute {
      w.Raw("\"mute\"");
      assert [] + [Str("mute")] == [Str("mute")];
    }
    assert Commands(h) == if h.supportVolume then if h.supportMute then [Str("volume")] + [Str("mute")] else [Str("volume")]
                          else if h.supportMute then [Str("mute")] else [];
  }

  lemma CommandText()
    ensures Print(Str("volume")) == "\"volume\"" && Print(Str("mute")) == "\"mute\""
  {
    hide Escape;
    assert Plain("volume") && Plain("mute");
    PlainEscape("volume");
    PlainEscape("mute");
  }

  // The support object, from its key to its closing brace.
  method WriteSupport(w: Writer, h: Hello, ghost fs: seq<Entry>)
    requires w.Valid() && w.goal == Partial(OPENING, fs) && fs != []
    modifies w, w.buf
    ensures w.Valid() && w.goal == Partial(OPENING, fs + [Entry("player@v1_support", Obj(SupportFields(h)))])
  {
    hide Partial, PartialArray, KeyText, Plain, Print, PrintFields, FormatItems, Commands, Integer;
    SupportNames();
    SupportKey(fs);
    FormatsKey();
    ghost var before := w.goal + KeyText(fs, "player@v1_support");
    ghost var ss: seq<Entry> := [];
    w.Raw(",\"player@v1_support\":{\"supported_formats\":[");
    SupportOpens(w.goal, Partial(OPENING, fs), before);
    ghost var at := Partial(before, ss) + KeyText(ss, "supported_formats");
    WriteFormats(w, h, at);
    CloseArray(at, FormatItems(h));
    AddField(before, ss, "supported_formats", Arr(FormatItems(h)));
    ss := ss + [Entry("supported_formats", Arr(FormatItems(h)))];
    w.Raw("]");
    BufferKey(ss);
    NumberField(w, ",\"buffer_capacity\":", h.bufferCapacity, before, ss, "buffer_capacity");
    ss := ss + [Entry("buffer_capacity", Num(h.bufferCapacity))];
    CommandsKey(ss);
    at := Partial(before, ss) + KeyText(ss, "supported_commands");
    w.Raw(",\"supported_commands\":[");
    CommandsOpen(w.goal, Partial(before, ss), at);
    WriteCommands(w, h, at);
    CloseArray(at, Commands(h));
    AddField(before, ss, "supported_commands", Arr(Commands(h)));
    ss := ss + [Entry("supported_commands", Arr(Commands(h)))];
    w.Raw("]");
    w.Raw("}");
    assert ss == SupportFields(h);
    CloseObject(before, ss);
    AddField(OPENING, fs, "player@v1_support", Obj(ss));
  }

  lemma SupportOpens(w: string, g: string, before: string)
    requires w == g + ",\"player@v1_support\":{\"supported_formats\":[" && before == g + ",\"player@v1_support\":"
    ensures w == PartialArray(Partial(before, []) + KeyText([], "supported_formats"), [])
  {
    hide KeyText;
    NoFieldsYet(before);
    FormatsKey();
    SupportOpening();
    assert w == before + "{" + "\"supported_formats\":" + "[" + "";
  }

  lemma SupportOpening()
    ensures ",\"player@v1_support\":{\"supported_formats\":[" == ",\"player@v1_support\":" + "{" + "\"supported_formats\":" + "["
  {
  }

  lemma CommandsOpen(w: string, g: string, at: string)
    requires w == g + ",\"supported_commands\":[" && at == g + ",\"supported_commands\":"
    ensures w == PartialArray(at, [])
  {
    assert w == at + "[" + "";
  }

  // eaf_sendspin_build_client_hello.
  method BuildHello(dst: array<char>, h: Hello) returns (rc: int, written: nat)
    modifies dst
    ensures var text := Print(HelloJson(h));
      if dst.Length > 0 && |text| <= dst.Length then rc == OK && written == |text| && dst[..written] == text else rc == INVALID
  {
    hide Print, Partial, Quote, KeyText, Plain, Ending, DeviceFields, SupportFields;
    written := 0;
    if dst.Length == 0 {
      return INVALID, written;
    }
    var w := new Writer(dst);
    HelloStart(h);
    w.Raw("{\"payload\":{\"client_id\":");
    w.String(h.clientId);
    PrintStr(h.clientId);
    AddField(OPENING, [], "client_id", Str(h.clientId));
    ghost var fs := [Entry("client_id", Str(h.clientId))];
    assert [] + fs == fs;
    StringField(w, ",\"name\":", h.name, OPENING, fs, "name");
    fs := fs + [Entry("name", Str(h.name))];
    RolesText(fs);
    w.Raw(",\"version\":1,\"supported_roles\":[\"player@v1\"]");
    fs := fs + [Entry("version", Num(1)), Entry("supported_roles", Arr([Str("player@v1")]))];
    assert fs == IdentityFields(h);
    WriteDevice(w, h, fs);
    fs := fs + if DeviceFields(h) == [] then [] else [Entry("device_info", Obj(DeviceFields(h)))];
    WriteSupport(w, h, fs);
    HelloEnding();
    w.Raw("},\"type\":\"client/hello\"}");
    EndEnvelope(HelloFields(h), "client/hello");
    rc, written := Finish(w);
  }

  lemma HelloEnding()
    ensures Plain("client/hello") && "},\"type\":\"client/hello\"}" == Ending("client/hello")
  {
  }

  /** Every record a builder writes is one JSON value, and every path finds its field in it. */
  lemma BuiltRecordsReadBack(h: Hello, s: PlayerState, transmitted: i64, path: string)
    requires path != ""
    ensures forall j :: j in {HelloJson(h), StateJson(s), TimeJson(transmitted)} ==>
      SkipValue(Print(j), 0) == Some(|Print(j)|) &&
      JsonGet(Print(j), path)
        == match Lookup(j, Segments(path, 0)) case Success(v) => Success(ReadBack(v)) case Failure(code) => Failure(code)
  {
    hide Print, JsonGet, Lookup, SkipValue, ReadBack, HelloJson, StateJson, TimeJson;
    PrintThenGet(HelloJson(h), path);
    PrintThenGet(StateJson(s), path);
    PrintThenGet(TimeJson(transmitted), path);
  }

  lemma {:induction false} DotAt(path: string, p: nat, d: nat)
    requires p <= d <= |path| && (forall i :: p <= i < d ==> path[i] != '.') && (d < |path| ==> path[d] == '.')
    ensures Dot(path, p) == d
    decreases d - p
  {
    if p < d {
      DotAt(path, p + 1, d);
    }
  }

  lemma TwoSegments(a: string, b: string)
    requires '.' !in a && '.' !in b
    ensures Segments(a + "." + b, 0) == [a, b]
  {
    var path := a + "." + b;
    DotAt(path, 0, |a|);
    DotAt(path, |a| + 1, |path|);
    assert path[0..|a|] == a && path[|a| + 1..] == b;
  }

  lemma PayloadLookup(payload: seq<Entry>, kind: string, key: string)
    requires key != "" && '.' !in key
    ensures Segments("payload." + key, 0) == ["payload", key]
    ensures Lookup(Envelope(payload, kind), ["payload", key])
         == match Member(payload, key) case Some(v) => Success(v) case None => Failure(UNSUPPORTED)
  {
    hide Segments;
    TwoSegments("payload", key);
    assert "payload" + "." + key == "payload." + key;
    PlainEscape("payload");
    var segments := ["payload", key];
    assert segments[1..] == [key];
    var fs := Envelope(payload, kind).fields;
    assert Member(fs, "payload") == Some(Obj(payload));
  }

  // Every int64 timestamp is read back exactly, the minimum included.
  lemma TimeReadsBack(t: i64)
    ensures JsonGet(Print(TimeJson(t)), "payload.client_transmitted") == Success(ReadBack(Num(t))) && ReadBack(Num(t)).number == t
  {
    hide Print, Segments, JsonGet, Lookup, Envelope, Plain, Escape;
    TimePath();
    PayloadLookup([Entry(TRANSMITTED, Num(t))], "client/time", TRANSMITTED);
    PlainEscape(TRANSMITTED);
    OneMember(TRANSMITTED, Num(t));
    PrintThenGet(TimeJson(t), "payload.client_transmitted");
  }

  const TRANSMITTED: string := "client_transmitted"

  lemma TimePath()
    ensures Plain(TRANSMITTED) && '.' !in TRANSMITTED && "payload." + TRANSMITTED == "payload.client_transmitted"
  {
  }

  lemma OneMember(key: string, v: Json)
    requires Escape(key) == key
    ensures Member([Entry(key, v)], key) == Some(v)
  {
    hide Escape;
  }

  // A name with any bytes in it arrives as that name.
  lemma NameReadsBack(h: Hello)
    ensures var v := JsonGet(Print(HelloJson(h)), "payload.name");
      v.Success? && v.value.kind == StringKind && Unescape(v.value.text) == Some(h.name)
  {
    hide Print, Segments, JsonGet, Lookup, Envelope, DeviceFields, SupportFields, Escape, Unescape;
    assert "payload." + "name" == "payload.name";
    PayloadLookup(HelloFields(h), "client/hello", "name");
    PlainEscape("client_id");
    PlainEscape("name");
    var fs := HelloFields(h);
    assert fs[0] == Entry("client_id", Str(h.clientId)) && fs[1..][0] == Entry("name", Str(h.name));
    assert Member(fs, "name") == Member(fs[1..], "name") == Some(Str(h.name));
    PrintThenGet(HelloJson(h), "payload.name");
    EscapeRoundTrip(h.name);
  }

  // Keys that need no escape, none of them twice.
  predicate Keyed(fs: seq<Entry>) {
    (forall i :: 0 <= i < |fs| ==> Plain(fs[i].key)) && forall i, j :: 0 <= i < j < |fs| ==> fs[i].key != fs[j].key
  }

  lemma {:induction false} MemberAt(fs: seq<Entry>, k: nat)
    requires Keyed(fs) && k < |fs|
    ensures Member(fs, fs[k].key) == Some(fs[k].value)
    decreases |fs|
  {
    hide Plain;
    PlainEscape(fs[0].key);
    if k > 0 {
      MemberAt(fs[1..], k - 1);
    }
  }

  lemma {:induction false} NoMember(fs: seq<Entry>, key: string)
    requires Keyed(fs) && forall i :: 0 <= i < |fs| ==> fs[i].key != key
    ensures Member(fs, key) == None
    decreases |fs|
  {
    hide Plain;
    if fs != [] {
      PlainEscape(fs[0].key);
      NoMember(fs[1..], key);
    }
  }

  lemma ThreeSegments(a: string, b: string, c: string)
    requires '.' !in a && '.' !in b && '.' !in c
    ensures Segments(a + "." + b + "." + c, 0) == [a, b, c]
  {
    var path := a + "." + b + "." + c;
    DotAt(path, 0, |a|);
    DotAt(path, |a| + 1, |a| + 1 + |b|);
    DotAt(path, |a| + |b| + 2, |path|);
    assert path[0..|a|] == a && path[|a| + 1..|a| + 1 + |b|] == b && path[|a| + |b| + 2..] == c;
    hide Dot;
    assert Segments(path, |a| + |b| + 2) == [c];
    assert Segments(path, |a| + 1) == [b] + [c];
  }

  // A field of the payload, and a field of an object in it.
  lemma PayloadGet(payload: seq<Entry>, kind: string, k: nat)
    requires Keyed(payload) && k < |payload| && payload[k].key != "" && '.' !in payload[k].key
    ensures JsonGet(Print(Envelope(payload, kind)), "payload." + payload[k].key) == Success(ReadBack(payload[k].value))
  {
    hide Print, Segments, JsonGet, Lookup, Envelope, Keyed, Escape, ReadBack;
    PayloadLookup(payload, kind, payload[k].key);
    MemberAt(payload, k);
    PrintThenGet(Envelope(payload, kind), "payload." + payload[k].key);
  }

  lemma NestedGet(payload: seq<Entry>, kind: string, k: nat, fs: seq<Entry>, inner: string)
    requires Keyed(payload) && k < |payload| && payload[k].value == Obj(fs) && '.' !in payload[k].key && '.' !in inner
    ensures JsonGet(Print(Envelope(payload, kind)), "payload." + payload[k].key + "." + inner)
         == match Member(fs, inner) case Some(v) => Success(ReadBack(v)) case None => Failure(UNSUPPORTED)
  {
    hide Print, Segments, JsonGet, Keyed, Escape, ReadBack, Plain;
    var outer := payload[k].key;
    ThreeSegments("payload", outer, inner);
    var path := "payload" + "." + outer + "." + inner;
    assert path == "payload." + outer + "." + inner;
    MemberAt(payload, k);
    EnvelopeHas(payload, kind);
    LookupThree(Envelope(payload, kind), "payload", outer, inner, Obj(payload), fs);
    PrintThenGet(Envelope(payload, kind), path);
  }

  lemma LookupThree(j: Json, a: string, b: string, c: string, p: Json, fs: seq<Entry>)
    requires j.Obj? && Member(j.fields, a) == Some(p) && p.Obj? && Member(p.fields, b) == Some(Obj(fs))
    ensures Lookup(j, [a, b, c]) == match Member(fs, c) case Some(v) => Success(v) case None => Failure(UNSUPPORTED)
  {
    hide Member;
    assert [a, b, c][1..] == [b, c] && [b, c][1..] == [c];
    assert Lookup(p, [b, c]) == Lookup(Obj(fs), [c]);
  }

  lemma EnvelopeHas(payload: seq<Entry>, kind: string)
    ensures Envelope(payload, kind).Obj? && Member(Envelope(payload, kind).fields, "payload") == Some(Obj(payload))
  {
    assert Plain("payload");
    PlainEscape("payload");
  }

  // The kind of a message.
  lemma TypeGet(payload: seq<Entry>, kind: string)
    ensures JsonGet(Print(Envelope(payload, kind)), "type") == Success(ReadBack(Str(kind)))
  {
    hide Print, JsonGet, Escape, ReadBack, Plain;
    TypeKeys();
    var fs := [Entry("payload", Obj(payload)), Entry("type", Str(kind))];
    MemberAt(fs, 1);
    OneSegment("type");
    PrintThenGet(Envelope(payload, kind), "type");
  }

  lemma TypeKeys()
    ensures forall a: Json, b: Json :: Keyed([Entry("payload", a), Entry("type", b)])
    ensures '.' !in "type"
  {
    assert "payload"[0] != "type"[0];
  }

  lemma OneSegment(key: string)
    requires '.' !in key
    ensures Segments(key, 0) == [key]
  {
    DotAt(key, 0, |key|);
    assert key[0..] == key;
  }

  lemma StateKeyed(s: PlayerState)
    ensures Keyed(StateFields(s))
  {
    var fs := StateFields(s);
    StateKeys();
    assert Plain("state");
    assert |"state"| == 5 && |"volume"| == 6 && |"muted"| == 5 && |"static_delay_ms"| == 15 && |"required_lead_time_ms"| == 21 && |"min_buffer_ms"| == 13;
    assert "state"[0] != "muted"[0];
  }

  lemma PlayerKeyed(s: PlayerState)
    ensures Keyed([Entry("player", Obj(StateFields(s)))]) && '.' !in "player"
  {
  }

  lemma StatePaths()
    ensures '.' !in "state" && '.' !in "volume" && '.' !in "muted" && '.' !in "static_delay_ms" && '.' !in "required_lead_time_ms"
    ensures '.' !in "min_buffer_ms"
  {
  }

  /** Every field of a state record is read back from its own path. */
  lemma StateReadsBack(s: PlayerState)
    ensures var t := Print(StateJson(s));
      && JsonGet(t, "type") == Success(ReadBack(Str("client/state")))
      && JsonGet(t, "payload." + "player" + "." + "state") == Success(ReadBack(Str("synchronized")))
      && JsonGet(t, "payload." + "player" + "." + "volume") == Success(ReadBack(Num(s.volume)))
      && JsonGet(t, "payload." + "player" + "." + "muted") == Success(ReadBack(Bool(s.muted)))
      && JsonGet(t, "payload." + "player" + "." + "static_delay_ms") == Success(ReadBack(Num(s.staticDelayMs)))
      && JsonGet(t, "payload." + "player" + "." + "required_lead_time_ms") == Success(ReadBack(Num(s.requiredLeadTimeMs)))
      && JsonGet(t, "payload." + "player" + "." + "min_buffer_ms") == Success(ReadBack(Num(s.minBufferMs)))
    ensures forall n: int :: INT64_MIN <= n <= INT64_MAX ==> ReadBack(Num(n)).kind == NumberKind && ReadBack(Num(n)).number == n
    ensures ReadBack(Bool(s.muted)).kind == BoolKind && ReadBack(Bool(s.muted)).boolean == s.muted
  {
    hide Print, JsonGet, Escape, Plain, Keyed, Envelope;
    var fs := StateFields(s);
    var payload := [Entry("player", Obj(fs))];
    StateKeyed(s);
    PlayerKeyed(s);
    StatePaths();
    TypeGet(payload, "client/state");
    StateNested(payload, fs, 0);
    StateNested(payload, fs, 1);
    StateNested(payload, fs, 2);
    StateNested(payload, fs, 3);
    StateNested(payload, fs, 4);
    StateNested(payload, fs, 5);
  }

  lemma StateNested(payload: seq<Entry>, fs: seq<Entry>, k: nat)
    requires Keyed(fs) && k < |fs| && payload == [Entry("player", Obj(fs))] && Keyed(payload) && '.' !in "player" && '.' !in fs[k].key
    ensures JsonGet(Print(Envelope(payload, "client/state")), "payload." + "player" + "." + fs[k].key) == Success(ReadBack(fs[k].value))
  {
    hide Print, JsonGet, Plain, Keyed, Envelope, Member, ReadBack;
    MemberAt(fs, k);
    NestedGet(payload, "client/state", 0, fs, fs[k].key);
  }

  const DEVICE: string := "device_info"
  const SUPPORT: string := "player@v1_support"

  // The fields of a hello, in a list of known length.
  lemma HelloShape(h: Hello)
    ensures var fs, d := HelloFields(h), DeviceFields(h);
      && |fs| == (if d == [] then 5 else 6)
      && fs[0] == Entry("client_id", Str(h.clientId)) && fs[1] == Entry("name", Str(h.name)) && fs[2] == Entry("version", Num(1))
      && fs[3] == Entry("supported_roles", Arr([Str("player@v1")]))
      && (d != [] ==> fs[4] == Entry(DEVICE, Obj(d)))
      && fs[|fs| - 1] == Entry(SUPPORT, Obj(SupportFields(h)))
  {
    hide DeviceFields, SupportFields;
  }

  lemma HelloKeyed(h: Hello)
    ensures Keyed(HelloFields(h))
  {
    hide DeviceFields, SupportFields, HelloFields, Plain;
    HelloShape(h);
    HelloNames();
    var fs := HelloFields(h);
    forall i, j | 0 <= i < j < |fs| ensures fs[i].key != fs[j].key {
      assert |fs[i].key| != |fs[j].key|;
    }
  }

  lemma HelloNames()
    ensures Plain("client_id") && Plain("name") && Plain("version") && Plain("supported_roles") && Plain(DEVICE) && Plain(SUPPORT)
    ensures |"client_id"| == 9 && |"name"| == 4 && |"version"| == 7 && |"supported_roles"| == 15 && |DEVICE| == 11 && |SUPPORT| == 17
    ensures '.' !in "client_id" && '.' !in "name" && '.' !in "version" && '.' !in "supported_roles" && '.' !in DEVICE && '.' !in SUPPORT
  {
  }

  lemma SupportKeyed(h: Hello)
    ensures Keyed(SupportFields(h))
    ensures '.' !in "supported_formats" && '.' !in "buffer_capacity" && '.' !in "supported_commands"
  {
    hide Plain, FormatItems, Commands;
    SupportNames();
    assert |"supported_formats"| == 17 && |"buffer_capacity"| == 15 && |"supported_commands"| == 18;
  }

  lemma DeviceKeyed(h: Hello)
    ensures Keyed(DeviceFields(h)) && '.' !in "product_name" && '.' !in "manufacturer" && '.' !in "software_version"
  {
    hide Plain;
    DeviceNames();
    assert |"product_name"| == 12 && |"manufacturer"| == 12 && |"software_version"| == 16 && "product_name"[0] != "manufacturer"[0];
  }

  // An optional string is there exactly when it was given.
  lemma DeviceMembers(h: Hello)
    ensures Member(DeviceFields(h), "product_name") == if h.product.Some? then Some(Str(h.product.value)) else None
    ensures Member(DeviceFields(h), "manufacturer") == if h.manufacturer.Some? then Some(Str(h.manufacturer.value)) else None
    ensures Member(DeviceFields(h), "software_version") == if h.software.Some? then Some(Str(h.software.value)) else None
  {
    hide Member, Keyed;
    DeviceKeyed(h);
    var fs := DeviceFields(h);
    var a, b := if h.product.Some? then 1 else 0, if h.manufacturer.Some? then 1 else 0;
    assert h.product.Some? ==> fs[0] == Entry("product_name", Str(h.product.value));
    assert h.manufacturer.Some? ==> fs[a] == Entry("manufacturer", Str(h.manufacturer.value));
    assert h.software.Some? ==> fs[a + b] == Entry("software_version", Str(h.software.value));
    DeviceMember(DeviceFields(h), "product_name", h.product);
    DeviceMember(DeviceFields(h), "manufacturer", h.manufacturer);
    DeviceMember(DeviceFields(h), "software_version", h.software);
  }

  lemma DeviceMember(fs: seq<Entry>, key: string, value: Option<string>)
    requires Keyed(fs)
    requires if value.Some? then exists k :: 0 <= k < |fs| && fs[k] == Entry(key, Str(value.value))
      else forall k :: 0 <= k < |fs| ==> fs[k].key != key
    ensures Member(fs, key) == if value.Some? then Some(Str(value.value)) else None
  {
    hide Member, Keyed;
    if value.Some? {
      var k :| 0 <= k < |fs| && fs[k] == Entry(key, Str(value.value));
      MemberAt(fs, k);
    } else {
      NoMember(fs, key);
    }
  }

  // A path into an object that is not there.
  lemma NestedMissing(payload: seq<Entry>, kind: string, outer: string, inner: string)
    requires Member(payload, outer) == None && '.' !in outer && '.' !in inner
    ensures JsonGet(Print(Envelope(payload, kind)), "payload." + outer + "." + inner) == Failure(UNSUPPORTED)
  {
    hide Print, Segments, JsonGet, Escape, ReadBack, Member, Envelope;
    ThreeSegments("payload", outer, inner);
    var path := "payload" + "." + outer + "." + inner;
    assert path == "payload." + outer + "." + inner;
    EnvelopeHas(payload, kind);
    LookupTwo(Envelope(payload, kind), "payload", outer, inner, payload);
    PrintThenGet(Envelope(payload, kind), path);
  }

  lemma LookupTwo(j: Json, a: string, b: string, c: string, fs: seq<Entry>)
    requires j.Obj? && Member(j.fields, a) == Some(Obj(fs)) && Member(fs, b) == None
    ensures Lookup(j, [a, b, c]) == Failure(UNSUPPORTED)
  {
    hide Member;
    assert [a, b, c][1..] == [b, c];
    assert Lookup(Obj(fs), [b, c]) == Failure(UNSUPPORTED);
  }

  lemma DeviceGet(h: Hello, key: string)
    requires '.' !in key
    ensures JsonGet(Print(HelloJson(h)), "payload." + DEVICE + "." + key)
         == match Member(DeviceFields(h), key) case Some(v) => Success(ReadBack(v)) case None => Failure(UNSUPPORTED)
  {
    hide Print, JsonGet, Keyed, Envelope, HelloFields, DeviceFields, SupportFields, Member, ReadBack;
    HelloShape(h);
    HelloKeyed(h);
    HelloNames();
    if DeviceFields(h) == [] {
      NoDevice(h);
      NoneIn(key);
      NestedMissing(HelloFields(h), "client/hello", DEVICE, key);
    } else {
      NestedGet(HelloFields(h), "client/hello", 4, DeviceFields(h), key);
    }
  }

  lemma NoneIn(key: string)
    ensures Member([], key) == None
  {
  }

  lemma NoDevice(h: Hello)
    requires DeviceFields(h) == []
    ensures Member(HelloFields(h), DEVICE) == None
  {
    hide Keyed, HelloFields, DeviceFields, SupportFields, Member;
    HelloShape(h);
    HelloKeyed(h);
    HelloNames();
    var fs := HelloFields(h);
    forall i | 0 <= i < |fs| ensures fs[i].key != DEVICE {
      assert |fs[i].key| != |DEVICE|;
    }
    NoMember(fs, DEVICE);
  }

  /** Every field of a hello is read back from its own path; an optional one is missing exactly when it was not
      given, and a command is listed exactly when it is supported. */
  lemma HelloReadsBack(h: Hello)
    ensures var t := Print(HelloJson(h));
      && JsonGet(t, "type") == Success(ReadBack(Str("client/hello")))
      && JsonGet(t, "payload." + "client_id") == Success(ReadBack(Str(h.clientId)))
      && JsonGet(t, "payload." + "name") == Success(ReadBack(Str(h.name)))
      && JsonGet(t, "payload." + "version") == Success(ReadBack(Num(1)))
      && JsonGet(t, "payload." + "supported_roles") == Success(ReadBack(Arr([Str("player@v1")])))
      && JsonGet(t, "payload." + SUPPORT + "." + "supported_formats") == Success(ReadBack(Arr(FormatItems(h))))
      && JsonGet(t, "payload." + SUPPORT + "." + "buffer_capacity") == Success(ReadBack(Num(h.bufferCapacity)))
      && JsonGet(t, "payload." + SUPPORT + "." + "supported_commands") == Success(ReadBack(Arr(Commands(h))))
      && JsonGet(t, "payload." + DEVICE + "." + "product_name")
        == (match h.product case Some(v) => Success(ReadBack(Str(v))) case None => Failure(UNSUPPORTED))
      && JsonGet(t, "payload." + DEVICE + "." + "manufacturer")
        == (match h.manufacturer case Some(v) => Success(ReadBack(Str(v))) case None => Failure(UNSUPPORTED))
      && JsonGet(t, "payload." + DEVICE + "." + "software_version")
        == (match h.software case Some(v) => Success(ReadBack(Str(v))) case None => Failure(UNSUPPORTED))
    ensures ArrayContains(ReadBack(Arr(Commands(h))), "volume") <==> h.supportVolume
    ensures ArrayContains(ReadBack(Arr(Commands(h))), "mute") <==> h.supportMute
  {
    hide Print, JsonGet, Keyed, Envelope, HelloFields, DeviceFields, SupportFields, Member, ReadBack, Escape, Plain, ArrayContains, FormatItems;
    var fs := HelloFields(h);
    HelloShape(h);
    HelloKeyed(h);
    HelloNames();
    TypeGet(fs, "client/hello");
    PayloadGet(fs, "client/hello", 0);
    PayloadGet(fs, "client/hello", 1);
    PayloadGet(fs, "client/hello", 2);
    PayloadGet(fs, "client/hello", 3);
    SupportGet(h, 0);
    SupportGet(h, 1);
    SupportGet(h, 2);
    SupportList(h);
    DeviceKeyed(h);
    DeviceMembers(h);
    DeviceGet(h, "product_name");
    DeviceGet(h, "manufacturer");
    DeviceGet(h, "software_version");
    CommandsListed(h);
  }

  lemma SupportList(h: Hello)
    ensures var fs := SupportFields(h);
      |fs| == 3 && fs[0] == Entry("supported_formats", Arr(FormatItems(h))) && fs[1] == Entry("buffer_capacity", Num(h.bufferCapacity))
      && fs[2] == Entry("supported_commands", Arr(Commands(h)))
  {
    hide FormatItems, Commands;
  }

  lemma SupportGet(h: Hello, k: nat)
    requires k < 3
    ensures |SupportFields(h)| == 3
    ensures JsonGet(Print(HelloJson(h)), "payload." + SUPPORT + "." + SupportFields(h)[k].key) == Success(ReadBack(SupportFields(h)[k].value))
  {
    hide Print, JsonGet, Keyed, Envelope, HelloFields, DeviceFields, SupportFields, Member, ReadBack, FormatItems, Commands;
    HelloShape(h);
    HelloKeyed(h);
    HelloNames();
    SupportList(h);
    SupportKeyed(h);
    var fs := SupportFields(h);
    MemberAt(fs, k);
    NestedGet(HelloFields(h), "client/hello", |HelloFields(h)| - 1, fs, fs[k].key);
  }

  lemma CommandsListed(h: Hello)
    ensures ArrayContains(ReadBack(Arr(Commands(h))), "volume") <==> h.supportVolume
    ensures ArrayContains(ReadBack(Arr(Commands(h))), "mute") <==> h.supportMute
  {
    hide ArrayContains, ReadBack, Escape;
    var items := Commands(h);
    assert Plain("volume") && Plain("mute");
    PlainEscape("volume");
    PlainEscape("mute");
    assert "volume" != "mute" by { assert |"volume"| == 6 && |"mute"| == 4; }
    ContainsReads(Arr(items), "volume");
    ContainsReads(Arr(items), "mute");
    assert h.supportVolume ==> items[0] == Str("volume");
    assert h.supportMute ==> items[|items| - 1] == Str("mute");
  }

  lemma FormatKeyed(f: AudioFormat)
    requires CodecName(f.codec).Some?
    ensures Keyed(FormatFields(f)) && '.' !in "codec" && '.' !in "channels" && '.' !in "sample_rate" && '.' !in "bit_depth"
  {
    hide Plain;
    FormatLiterals("", CodecName(f.codec).value, []);
    assert |"codec"| == 5 && |"channels"| == 8 && |"sample_rate"| == 11 && |"bit_depth"| == 9;
  }

  /** A format reads back: its codec's name, its channels and rate, and a depth exactly for PCM that has one. */
  lemma FormatReadsBack(f: AudioFormat)
    requires CodecName(f.codec).Some?
    ensures var t := Print(Obj(FormatFields(f)));
      && JsonGet(t, "codec") == Success(ReadBack(Str(CodecName(f.codec).value)))
      && JsonGet(t, "channels") == Success(ReadBack(Num(f.channels)))
      && JsonGet(t, "sample_rate") == Success(ReadBack(Num(f.sampleRate)))
      && JsonGet(t, "bit_depth") == if f.codec == Pcm && f.bitDepth != 0 then Success(ReadBack(Num(f.bitDepth))) else Failure(UNSUPPORTED)
  {
    hide Print, JsonGet, Keyed, ReadBack, Member, CodecName;
    var fs := FormatFields(f);
    FormatKeyed(f);
    FormatGet(fs, 0);
    FormatGet(fs, 1);
    FormatGet(fs, 2);
    if f.codec == Pcm && f.bitDepth != 0 {
      FormatGet(fs, 3);
    } else {
      assert |"codec"| == 5 && |"channels"| == 8 && |"sample_rate"| == 11 && |"bit_depth"| == 9;
      NoMember(fs, "bit_depth");
      OneSegment("bit_depth");
      PrintThenGet(Obj(fs), "bit_depth");
    }
  }

  lemma FormatGet(fs: seq<Entry>, k: nat)
    requires Keyed(fs) && k < |fs| && fs[k].key != "" && '.' !in fs[k].key
    ensures JsonGet(Print(Obj(fs)), fs[k].key) == Success(ReadBack(fs[k].value))
  {
    hide Print, JsonGet, Keyed, ReadBack, Member;
    MemberAt(fs, k);
    OneSegment(fs[k].key);
    PrintThenGet(Obj(fs), fs[k].key);
  }

  // How many of the formats have a name.
  function Named(fs: seq<AudioFormat>): nat
    decreases |fs|
  {
    if fs == [] then 0 else Named(fs[..|fs| - 1]) + if fs[|fs| - 1].codec == UnknownCodec then 0 else 1
  }

  /** The list of formats holds those of known codecs, in order; one made of the record's own numbers stands in
      for an empty list. */
  lemma {:induction false} FormatsInOrder(fs: seq<AudioFormat>, i: nat)
    requires i < |fs| && fs[i].codec != UnknownCodec
    ensures |NamedFormats(fs)| == Named(fs) && Named(fs[..i]) < Named(fs)
    ensures CodecName(fs[i].codec).Some? && NamedFormats(fs)[Named(fs[..i])] == Obj(FormatFields(fs[i]))
    decreases |fs|
  {
    hide FormatFields;
    var prefix := fs[..|fs| - 1];
    NamedSize(fs);
    NamedSize(prefix);
    if i < |fs| - 1 {
      FormatsInOrder(prefix, i);
      assert prefix[..i] == fs[..i];
    }
  }

  lemma {:induction false} NamedSize(fs: seq<AudioFormat>)
    ensures |NamedFormats(fs)| == Named(fs)
    decreases |fs|
  {
    hide FormatFields;
    if fs != [] {
      NamedSize(fs[..|fs| - 1]);
    }
  }

  lemma FallbackStandsIn(h: Hello)
    ensures Named(h.formats) == 0 ==> FormatItems(h) == [Obj(FormatFields(AudioFormat(Pcm, h.sampleRate, h.channels, h.bitDepth)))]
    ensures Named(h.formats) > 0 ==> FormatItems(h) == NamedFormats(h.formats)
  {
    hide FormatFields;
    NamedSize(h.formats);
  }
}
