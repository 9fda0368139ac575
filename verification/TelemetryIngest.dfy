/** The telemetry server's decode cascade and the rows it stores: telemetry_server/src/main.rs. */
module TelemetryIngest {
  import opened Bytes
  import opened Messages
  import opened Settings
  import opened Codec
  import opened Wire

  const MAX_BODY := 512 * 1024
  const DECODE_LIMIT := 64 * 1024

  datatype Parsed = V2(payload: Payload) | V1(earlier: PayloadV1) | Unknown

  /** First the current format, then the old one; trailing bytes are ignored by both. */
  function Classify(buffer: seq<byte>): Parsed {
    match Decode(PAYLOAD, Source(buffer, Left(DECODE_LIMIT)))
    case Done((v, _)) => V2(PayloadOf(v))
    case Failed =>
      match Decode(PAYLOAD_V1, Source(buffer, Left(DECODE_LIMIT)))
      case Done((v, _)) => V1(PayloadV1Of(v))
      case Failed => Unknown
  }

  function Encode2(p: Payload): seq<byte> { Encode(PAYLOAD, PayloadVal(p)) }

  function Encode1(p: PayloadV1): seq<byte> { Encode(PAYLOAD_V1, PayloadV1Val(p)) }

  function Cost2(p: Payload): nat { Cost(PAYLOAD, PayloadVal(p)) }

  function Cost1(p: PayloadV1): nat { Cost(PAYLOAD_V1, PayloadV1Val(p)) }

  // ---- A record with one more field ----

  /** The record `s` with the field `x` added at the end. */
  function Append(s: Schema, x: Schema): Schema {
    match s
    case Pair(a, b) => Pair(a, Append(b, x))
    case _ => Pair(s, x)
  }

  function AppendVal(s: Schema, v: Val, w: Val): Val
    requires Fits(s, v)
  {
    match s
    case Pair(_, b) => Both(v.first, AppendVal(b, v.second, w))
    case _ => Both(v, w)
  }

  /** Nothing decodes as `x`. */
  ghost predicate NeedsInput(x: Schema) { forall c :: Decode(x, Source([], c)).Failed? }

  lemma {:induction false} MissingInPair(s: Schema, x: Schema, v: Val, b: Budget)
    requires Fits(s, v) && s.Pair? && NeedsInput(x)
    ensures Decode(Append(s, x), Source(Encode(s, v), b)).Failed?
    decreases s, 0
  {
    RoundTrip(s.first, v.first, Encode(s.second, v.second), b);
    assert Encode(s, v) == Encode(s.first, v.first) + Encode(s.second, v.second);
    assert Append(s, x) == Pair(s.first, Append(s.second, x));
    if Affords(b, Cost(s.first, v.first)) {
      MissingFieldFails(s.second, x, v.second, Spend(b, Cost(s.first, v.first)));
    }
  }

  lemma MissingAfterLeaf(s: Schema, x: Schema, v: Val, b: Budget)
    requires Fits(s, v) && !s.Pair? && NeedsInput(x)
    ensures Decode(Append(s, x), Source(Encode(s, v), b)).Failed?
  {
    RoundTrip(s, v, [], b);
    assert Encode(s, v) + [] == Encode(s, v);
    PairRunsOut(s, x, Encode(s, v), b);
  }

  lemma PairRunsOut(s: Schema, x: Schema, p: seq<byte>, b: Budget)
    requires NeedsInput(x) && (Decode(s, Source(p, b)).Done? ==> Decode(s, Source(p, b)).value.1.bytes == [])
    ensures Decode(Pair(s, x), Source(p, b)).Failed?
  {
    var first := Decode(s, Source(p, b));
    if first.Done? {
      assert first.value.1 == Source([], first.value.1.budget);
    }
  }

  /** A record without its last field is not a record with it: decoding runs into the end of the input. */
  lemma {:induction false} MissingFieldFails(s: Schema, x: Schema, v: Val, b: Budget)
    requires Fits(s, v) && NeedsInput(x)
    ensures Decode(Append(s, x), Source(Encode(s, v), b)).Failed?
    decreases s, 1
  {
    if s.Pair? {
      MissingInPair(s, x, v, b);
    } else {
      MissingAfterLeaf(s, x, v, b);
    }
  }

  /** A record with the field starts with the record without it. */
  lemma {:induction false} ExtraFieldFollows(s: Schema, x: Schema, v: Val, w: Val)
    requires Fits(s, v) && Fits(x, w)
    ensures Fits(Append(s, x), AppendVal(s, v, w))
    ensures Encode(Append(s, x), AppendVal(s, v, w)) == Encode(s, v) + Encode(x, w)
    decreases s
  {
    match s {
      case Pair(first, second) =>
        ExtraFieldFollows(second, x, v.second, w);
        Associate(Encode(first, v.first), Encode(second, v.second), Encode(x, w));
      case _ =>
    }
  }

  lemma TextNeedsInput()
    ensures NeedsInput(Str)
  {
    forall c
      ensures Decode(Str, Source([], c)).Failed?
    {
      assert DecodeStr(Source([], c)).Failed?;
    }
  }

  /** An identifier and variant `tag` of an enum, whose fields are `s`. */
  lemma WrongFieldsFail(id: u64, vs: seq<Schema>, tag: nat, body: seq<byte>, b: Budget)
    requires tag < |vs| < 0x100 && forall c :: Decode(vs[tag], Source(body, c)).Failed?
    ensures Decode(Pair(U64, Enum(vs)), Source(Varint(id) + (Varint(tag) + body), b)).Failed?
  {
    Pow256Values();
    NumRoundTrip(id, 8, Varint(tag) + body, b);
    if Affords(b, 8) {
      NumRoundTrip(tag, 4, body, Spend(b, 8));
    }
  }

  // ---- The old start-up message ----

  function StartupVal(d: TelemetryDataV1): (v: Val)
    requires d.StartupV1?
    ensures Fits(DATA_V1_VARIANTS[0], v)
  {
    DataV1Val(d).v
  }

  lemma StartupSchemas()
    ensures DATA_VARIANTS[0] == Append(DATA_V1_VARIANTS[0], Str)
    ensures DATA_VARIANTS[1..] == DATA_V1_VARIANTS[1..]
  {
    assert Append(Str, Str) == Pair(Str, Str);
    assert Append(Pair(Str, Str), Str) == Pair(Str, Append(Str, Str));
    assert Append(Pair(U16, Pair(Str, Str)), Str) == Pair(U16, Append(Pair(Str, Str), Str));
  }

  lemma EncodedPair(a: Schema, b: Schema, x: Val, y: Val)
    requires Fits(a, x) && Fits(b, y)
    ensures Fits(Pair(a, b), Both(x, y)) && Encode(Pair(a, b), Both(x, y)) == Encode(a, x) + Encode(b, y)
  {
  }

  lemma OldStartupBytes(p: PayloadV1)
    requires p.data.StartupV1?
    ensures Encode1(p) == Varint(p.id) + (Varint(0) + Encode(DATA_V1_VARIANTS[0], StartupVal(p.data)))
  {
    assert PayloadV1Val(p) == Both(Num(p.id), DataV1Val(p.data));
    EncodedPair(U64, DATA_V1, Num(p.id), DataV1Val(p.data));
    assert DataV1Val(p.data) == Choice(0, StartupVal(p.data));
    assert Encode(DATA_V1, DataV1Val(p.data)) == Varint(0) + Encode(DATA_V1_VARIANTS[0], StartupVal(p.data));
  }

  /** An old start-up message never decodes as a current one, within the limit or not. */
  lemma OldStartupIsNotCurrent(p: PayloadV1, b: Budget)
    requires p.data.StartupV1?
    ensures Decode(PAYLOAD, Source(Encode1(p), b)).Failed?
  {
    OldStartupBytes(p);
    StartupSchemas();
    TextNeedsInput();
    var body := Encode(DATA_V1_VARIANTS[0], StartupVal(p.data));
    forall c
      ensures Decode(DATA_VARIANTS[0], Source(body, c)).Failed?
    {
      MissingFieldFails(DATA_V1_VARIANTS[0], Str, StartupVal(p.data), c);
    }
    WrongFieldsFail(p.id, DATA_VARIANTS, 0, body, b);
  }

  lemma OldDecodes(p: PayloadV1, rest: seq<byte>, b: Budget)
    ensures Decode(PAYLOAD_V1, Source(Encode1(p) + rest, b)) ==
            if Affords(b, Cost1(p)) then Done((PayloadV1Val(p), Source(rest, Spend(b, Cost1(p))))) else Failed
  {
    RoundTrip(PAYLOAD_V1, PayloadV1Val(p), rest, b);
  }

  lemma CurrentDecodes(p: Payload, b: Budget)
    ensures Decode(PAYLOAD, Source(Encode2(p), b)) ==
            if Affords(b, Cost2(p)) then Done((PayloadVal(p), Source([], Spend(b, Cost2(p))))) else Failed
  {
    RoundTrip(PAYLOAD, PayloadVal(p), [], b);
    assert Encode2(p) + [] == Encode2(p);
  }

  /** Old start-up messages: recovered exactly as old ones, if they are within the limit. */
  lemma OldStartupIsRecovered(p: PayloadV1)
    requires p.data.StartupV1?
    ensures Classify(Encode1(p)) == if Cost1(p) <= 65_536 then V1(p) else Unknown
  {
    OldStartupIsNotCurrent(p, Left(DECODE_LIMIT));
    OldDecodes(p, [], Left(DECODE_LIMIT));
    assert Encode1(p) + [] == Encode1(p);
  }

  // ---- Current messages ----

  /** The same message in the current format; old start-ups have no counterpart. */
  function Lift(p: PayloadV1): Payload
    requires !p.data.StartupV1?
  {
    match p.data
    case StatusV1(profile, temps, fans) => Payload.Payload(p.id, Status(profile, temps, fans))
    case PanicV1(error) => Payload.Payload(p.id, Panic(error))
  }

  /** What is left of a start-up message when its last field is ignored. */
  function Truncate(p: Payload): PayloadV1
    requires p.data.Startup?
  {
    PayloadV1.PayloadV1(p.id, StartupV1(p.data.firmware, p.data.offset, p.data.cpu, p.data.os))
  }

  /** Status and panic messages have the same bytes and the same cost in both formats. */
  lemma FormatsCoincide(p: PayloadV1)
    requires !p.data.StartupV1?
    ensures Encode1(p) == Encode2(Lift(p)) && Cost1(p) == Cost2(Lift(p))
  {
    StartupSchemas();
    var v := DataV1Val(p.data);
    assert DataVal(Lift(p).data) == v;
    assert DATA_VARIANTS[v.tag] == DATA_VARIANTS[1..][v.tag - 1]
        && DATA_V1_VARIANTS[v.tag] == DATA_V1_VARIANTS[1..][v.tag - 1];
    assert Encode(DATA, v) == Encode(DATA_V1, v) && Cost(DATA, v) == Cost(DATA_V1, v);
  }

  lemma CurrentStartupBytes(p: Payload)
    requires p.data.Startup?
    ensures Encode2(p) == Encode1(Truncate(p)) + Encode(Str, Chars(p.data.motherboard))
  {
    StartupSchemas();
    StartupFields(p);
    var t := Truncate(p);
    var s, v, w := DATA_V1_VARIANTS[0], StartupVal(t.data), Chars(p.data.motherboard);
    ExtraFieldFollows(s, Str, v, w);
    OldStartupBytes(t);
    CurrentStartupParts(p);
    Regrouped(Varint(p.id), Varint(0), Encode(s, v), Encode(Str, w));
  }

  lemma Regrouped(a: seq<byte>, b: seq<byte>, c: seq<byte>, d: seq<byte>)
    ensures a + (b + (c + d)) == a + (b + c) + d
  {
  }

  lemma CurrentStartupParts(p: Payload)
    requires p.data.Startup?
    ensures DataVal(p.data).tag == 0 && Fits(DATA_VARIANTS[0], DataVal(p.data).v)
    ensures Encode2(p) == Varint(p.id) + (Varint(0) + Encode(DATA_VARIANTS[0], DataVal(p.data).v))
  {
    var v := Content(DATA_VARIANTS, DataVal(p.data));
    EncodedPair(U64, DATA, Num(p.id), DataVal(p.data));
    assert Encode(DATA, DataVal(p.data)) == Varint(0) + Encode(DATA_VARIANTS[0], v);
  }

  lemma StartupFields(p: Payload)
    requires p.data.Startup?
    ensures DataVal(p.data).tag == 0
    ensures DataVal(p.data).v == AppendVal(DATA_V1_VARIANTS[0], StartupVal(Truncate(p).data), Chars(p.data.motherboard))
  {
    var d, w := p.data, Chars(p.data.motherboard);
    assert AppendVal(Str, Chars(d.os), w) == Both(Chars(d.os), w);
    assert AppendVal(Pair(Str, Str), Both(Chars(d.cpu), Chars(d.os)), w)
        == Both(Chars(d.cpu), AppendVal(Str, Chars(d.os), w));
    assert AppendVal(Pair(U16, Pair(Str, Str)), Both(Num(d.offset), Both(Chars(d.cpu), Chars(d.os))), w)
        == Both(Num(d.offset), AppendVal(Pair(Str, Str), Both(Chars(d.cpu), Chars(d.os)), w));
  }

  /**
   * Every current message, in all cases: recovered exactly when its cost is within the decode limit.
   * Above it, a start-up message whose other fields still fit is mistaken for an old one, and its
   * motherboard is lost; everything else is kept as raw data only.
   */
  lemma CurrentIsRecoveredIff(p: Payload)
    ensures Classify(Encode2(p)) ==
            if Cost2(p) <= 65_536 then V2(p)
            else if p.data.Startup? && Cost1(Truncate(p)) <= 65_536 then V1(Truncate(p))
            else Unknown
  {
    CurrentDecodes(p, Left(DECODE_LIMIT));
    if Cost2(p) > DECODE_LIMIT {
      if p.data.Startup? {
        CurrentStartupBytes(p);
        OldDecodes(Truncate(p), Encode(Str, Chars(p.data.motherboard)), Left(DECODE_LIMIT));
      } else {
        var lowered := Lower(p);
        FormatsCoincide(lowered);
        OldDecodes(lowered, [], Left(DECODE_LIMIT));
        assert Encode1(lowered) + [] == Encode1(lowered);
      }
    }
  }

  function Lower(p: Payload): (q: PayloadV1)
    requires !p.data.Startup?
    ensures !q.data.StartupV1? && Lift(q) == p
  {
    match p.data
    case Status(profile, temps, fans) => PayloadV1.PayloadV1(p.id, StatusV1(profile, temps, fans))
    case Panic(error) => PayloadV1.PayloadV1(p.id, PanicV1(error))
  }

  /** The cost of a start-up message in terms of its texts. */
  lemma StartupCosts(p: Payload)
    requires p.data.Startup?
    ensures Cost1(Truncate(p)) == 38 + |p.data.firmware| + |p.data.cpu| + |p.data.os|
    ensures Cost2(p) == Cost1(Truncate(p)) + 8 + |p.data.motherboard|
  {
  }

  // ---- Rows ----

  datatype Row =
    | StartupRow(rawId: nat, client: u64, daemonVersion: Text, firmware: Text, offset: u16, cpu: Text, os: Text,
        motherboard: Option<Text>)
    | StatusRow(rawId: nat, client: u64, daemonVersion: Text, profile: PowerProfile, temps: (u32, u32),
        fans: (u32, u32))
    | PanicRow(rawId: nat, client: u64, daemonVersion: Text, error: Text)

  function RowOf(rawId: nat, ver: Text, p: Payload): Row {
    match p.data
    case Startup(fw, off, cpu, os, mb) => StartupRow(rawId, p.id, ver, fw, off, cpu, os, Some(mb))
    case Status(profile, temps, fans) => StatusRow(rawId, p.id, ver, profile, temps, fans)
    case Panic(error) => PanicRow(rawId, p.id, ver, error)
  }

  function OldRowOf(rawId: nat, ver: Text, p: PayloadV1): Row {
    match p.data
    case StartupV1(fw, off, cpu, os) => StartupRow(rawId, p.id, ver, fw, off, cpu, os, None)
    case StatusV1(profile, temps, fans) => StatusRow(rawId, p.id, ver, profile, temps, fans)
    case PanicV1(error) => PanicRow(rawId, p.id, ver, error)
  }

  function ParsedRow(rawId: nat, ver: Text, x: Parsed): Option<Row> {
    match x
    case V2(p) => Some(RowOf(rawId, ver, p))
    case V1(p) => Some(OldRowOf(rawId, ver, p))
    case Unknown => None
  }

  /** An old sender within the limit gets the row its own message describes, whatever kind it is. */
  lemma OldSendersGetTheirRow(p: PayloadV1, rawId: nat, ver: Text)
    requires Cost1(p) <= 65_536
    ensures ParsedRow(rawId, ver, Classify(Encode1(p))) == Some(OldRowOf(rawId, ver, p))
  {
    if p.data.StartupV1? {
      OldStartupIsRecovered(p);
    } else {
      FormatsCoincide(p);
      CurrentIsRecoveredIff(Lift(p));
    }
  }

  // ---- What a sender finds in the tables ----

  /** The columns every row has. */
  predicate Stamped(row: Row, rawId: nat, ver: Text, client: u64) {
    row.rawId == rawId && row.daemonVersion == ver && row.client == client
  }

  /** A start-up row, column by column. */
  predicate StartupColumns(row: Row, fw: Text, off: u16, cpu: Text, os: Text, mb: Option<Text>) {
    && row.StartupRow? && row.firmware == fw && row.offset == off && row.cpu == cpu && row.os == os
    && row.motherboard == mb
  }

  /** The row of a current message has the message's own fields. */
  predicate Describes(row: Row, rawId: nat, ver: Text, p: Payload) {
    && Stamped(row, rawId, ver, p.id)
    && (match p.data
        case Startup(fw, off, cpu, os, mb) => StartupColumns(row, fw, off, cpu, os, Some(mb))
        case Status(profile, temps, fans) =>
          row.StatusRow? && row.profile == profile && row.temps == temps && row.fans == fans
        case Panic(error) => row.PanicRow? && row.error == error)
  }

  predicate DescribesOld(row: Row, rawId: nat, ver: Text, p: PayloadV1) {
    && Stamped(row, rawId, ver, p.id)
    && (match p.data
        case StartupV1(fw, off, cpu, os) => StartupColumns(row, fw, off, cpu, os, None)
        case StatusV1(profile, temps, fans) =>
          row.StatusRow? && row.profile == profile && row.temps == temps && row.fans == fans
        case PanicV1(error) => row.PanicRow? && row.error == error)
  }

  /** A current sender within the limit. */
  lemma CurrentSendersGetTheirRow(p: Payload, rawId: nat, ver: Text)
    requires Cost2(p) <= DECODE_LIMIT
    ensures ParsedRow(rawId, ver, Classify(Encode2(p))).Some?
    ensures Describes(ParsedRow(rawId, ver, Classify(Encode2(p))).value, rawId, ver, p)
  {
    CurrentIsRecoveredIff(p);
  }

  lemma OldSendersAreDescribed(p: PayloadV1, rawId: nat, ver: Text)
    requires Cost1(p) <= DECODE_LIMIT
    ensures ParsedRow(rawId, ver, Classify(Encode1(p))).Some?
    ensures DescribesOld(ParsedRow(rawId, ver, Classify(Encode1(p))).value, rawId, ver, p)
  {
    OldSendersGetTheirRow(p, rawId, ver);
  }

  /** Whatever message the body encodes, within the limit its row describes it. */
  lemma RecoveredWithinTheLimit(body: seq<byte>, rawId: nat, ver: Text)
    ensures forall p: Payload :: body == Encode2(p) && Cost2(p) <= DECODE_LIMIT ==>
              SomeRow(ParsedRow(rawId, ver, Classify(body)), rawId, ver, p)
    ensures forall p: PayloadV1 :: body == Encode1(p) && Cost1(p) <= DECODE_LIMIT ==>
              SomeOldRow(ParsedRow(rawId, ver, Classify(body)), rawId, ver, p)
  {
    forall p: Payload | body == Encode2(p) && Cost2(p) <= DECODE_LIMIT
      ensures SomeRow(ParsedRow(rawId, ver, Classify(body)), rawId, ver, p)
    {
      CurrentSendersGetTheirRow(p, rawId, ver);
    }
    forall p: PayloadV1 | body == Encode1(p) && Cost1(p) <= DECODE_LIMIT
      ensures SomeOldRow(ParsedRow(rawId, ver, Classify(body)), rawId, ver, p)
    {
      OldSendersAreDescribed(p, rawId, ver);
    }
  }

  predicate SomeRow(row: Option<Row>, rawId: nat, ver: Text, p: Payload) {
    row.Some? && Describes(row.value, rawId, ver, p)
  }

  predicate SomeOldRow(row: Option<Row>, rawId: nat, ver: Text, p: PayloadV1) {
    row.Some? && DescribesOld(row.value, rawId, ver, p)
  }

  /** The rows of a start-up message without and with a motherboard differ in that column alone. */
  lemma RowsDifferInTheMotherboard(id: u64, fw: Text, off: u16, cpu: Text, os: Text, mb: Text, rawId: nat, ver: Text)
    requires Cost2(Payload.Payload(id, Startup(fw, off, cpu, os, mb))) <= DECODE_LIMIT
    ensures var p := Payload.Payload(id, Startup(fw, off, cpu, os, mb));
            var q := PayloadV1.PayloadV1(id, StartupV1(fw, off, cpu, os));
            var now := ParsedRow(rawId, ver, Classify(Encode2(p)));
            var before := ParsedRow(rawId, ver, Classify(Encode1(q)));
            && now.Some? && before.Some? && now.value.StartupRow? && now.value.motherboard == Some(mb)
            && before.value == now.value.(motherboard := None)
  {
    var p := Payload.Payload(id, Startup(fw, off, cpu, os, mb));
    var q := PayloadV1.PayloadV1(id, StartupV1(fw, off, cpu, os));
    assert Truncate(p) == q;
    StartupCosts(p);
    CurrentSendersGetTheirRow(p, rawId, ver);
    OldSendersAreDescribed(q, rawId, ver);
  }

  datatype Tables = Tables(startup: seq<Row>, status: seq<Row>, panic: seq<Row>)

  /** Exactly one of the three tables, that of the row's kind, gained exactly this row. */
  predicate OneRow(before: Tables, after: Tables, row: Row) {
    && after.startup == before.startup + (if row.StartupRow? then [row] else [])
    && after.status == before.status + (if row.StatusRow? then [row] else [])
    && after.panic == before.panic + (if row.PanicRow? then [row] else [])
  }

  ghost predicate GainedRow(before: Tables, after: Tables, rawId: nat, ver: Text, p: Payload) {
    exists row :: OneRow(before, after, row) && Describes(row, rawId, ver, p)
  }

  ghost predicate GainedOldRow(before: Tables, after: Tables, rawId: nat, ver: Text, p: PayloadV1) {
    exists row :: OneRow(before, after, row) && DescribesOld(row, rawId, ver, p)
  }

  /** A body that encodes a message within 64 KiB is answered with 201 and stored as the row of that message. */
  ghost predicate Filed(before: Tables, after: Tables, body: seq<byte>, rawId: nat, ver: Text, code: nat) {
    && (forall p: Payload :: body == Encode2(p) && Cost2(p) <= 65_536 ==>
          code == 201 && GainedRow(before, after, rawId, ver, p))
    && (forall p: PayloadV1 :: body == Encode1(p) && Cost1(p) <= 65_536 ==>
          code == 201 && GainedOldRow(before, after, rawId, ver, p))
  }

  /** The tables of telemetry.db; a raw row's id is its position, counted from 1. */
  class Database {
    var raw: seq<(Text, seq<byte>)>
    var startup: seq<Row>
    var status: seq<Row>
    var panic: seq<Row>

    ghost function Contents(): Tables
      reads this
    {
      Tables(startup, status, panic)
    }

    constructor ()
      ensures raw == [] && startup == status == panic == []
    {
      raw, startup, status, panic := [], [], [], [];
    }

    method Insert(row: Row)
      modifies `startup, `status, `panic
      ensures startup == old(startup) + if row.StartupRow? then [row] else []
      ensures status == old(status) + if row.StatusRow? then [row] else []
      ensures panic == old(panic) + if row.PanicRow? then [row] else []
    {
      match row {
        case StartupRow(_, _, _, _, _, _, _, _) => startup := startup + [row];
        case StatusRow(_, _, _, _, _, _) => status := status + [row];
        case PanicRow(_, _, _, _) => panic := panic + [row];
      }
    }

    /**
     * A POST to /telemetry. `announced` is the content length, `readOk` whether the body could be
     * read, `rawOk` and `rowOk` whether the two inserts work. Every body that gets past the size
     * checks is kept raw, whatever becomes of it afterwards.
     */
    method HandlePost(ver: Text, announced: nat, body: seq<byte>, readOk: bool, rawOk: bool, rowOk: bool)
      returns (code: nat)
      modifies this
      ensures var kept := announced <= 524_288 && readOk && |body| <= 524_288 && rawOk;
              var row := ParsedRow(|old(raw)| + 1, ver, Classify(body));
              && raw == old(raw) + (if kept then [(ver, body)] else [])
              && startup == old(startup) + (if kept && rowOk && row.Some? && row.value.StartupRow? then [row.value]
                  else [])
              && status == old(status) + (if kept && rowOk && row.Some? && row.value.StatusRow? then [row.value]
                  else [])
              && panic == old(panic) + (if kept && rowOk && row.Some? && row.value.PanicRow? then [row.value] else [])
              && code == (if announced > 524_288 then 413 else if !readOk || |body| > 524_288 then 400
                          else if !rawOk then 500 else if row.None? then 202 else if rowOk then 201 else 500)
      ensures announced <= 524_288 && readOk && |body| <= 524_288 && rawOk && rowOk ==>
                Filed(old(Contents()), Contents(), body, |old(raw)| + 1, ver, code)
    {
      if announced > MAX_BODY {
        return 413;
      }
      if !readOk || |body| > MAX_BODY {
        return 400;
      }
      if !rawOk {
        return 500;
      }
      raw := raw + [(ver, body)];
      var parsed := ParsedRow(|raw|, ver, Classify(body));
      if parsed.None? {
        RecoveredWithinTheLimit(body, |raw|, ver);
        return 202;
      }
      if !rowOk {
        return 500;
      }
      Insert(parsed.value);
      RecoveredWithinTheLimit(body, |raw|, ver);
      assert OneRow(old(Contents()), Contents(), parsed.value);
      return 201;
    }
  }
}
