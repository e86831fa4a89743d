/** The byte formats of the provably-fair protocol, each with a reader that undoes it. */
module Encoding {
  import opened Text
  import opened Bytes
  import opened Rng

  const NEWLINE: Byte := 10

  // ---------- the reward map ----------

  const MAP_HEADER: string := "RNG-GAME-PLATFORM-DAILY-SPIN-MAP/1\n"

  function FieldName(index: nat, name: string): seq<Byte> {
    Ascii("reward[" + Decimal(index) + "]." + name + "=")
  }

  function KeyBytes(band: RewardBand): seq<Byte> {
    match Utf8(band.key) case Some(bytes) => bytes case None => []
  }

  function NumberLine(n: nat): seq<Byte> {
    Ascii(Decimal(n)) + [NEWLINE]
  }

  /** The three lines of one band. */
  function BandBytes(index: nat, band: RewardBand): seq<Byte>
    requires band.weight >= 0 && band.value >= 0
  {
    FieldName(index, "key") + (Sized(KeyBytes(band)) + ([NEWLINE]
    + (FieldName(index, "weight") + (NumberLine(band.weight)
    + (FieldName(index, "value") + NumberLine(band.value))))))
  }

  function BandsBytes(index: nat, bands: seq<RewardBand>): seq<Byte>
    requires index <= |bands| && forall i | 0 <= i < |bands| :: ValidBand(bands[i])
    decreases |bands| - index
  {
    if index == |bands| then []
    else
      assert ValidBand(bands[index]);
      BandBytes(index, bands[index]) + BandsBytes(index + 1, bands)
  }

  /** `daily_spin_mapping_bytes` of a valid map. */
  function DailySpinMappingBytes(bands: seq<RewardBand>): seq<Byte>
    requires ValidBands(bands)
  {
    Ascii(MAP_HEADER) + (Ascii("reward_count=") + (NumberLine(|bands|) + BandsBytes(0, bands)))
  }

  /** `name=number` and the end of the line. */
  function ReadNumberField(name: seq<Byte>, input: seq<Byte>): Option<Piece<nat>> {
    match Expect(name, input) case Some(rest) => ReadNumber(NEWLINE, rest) case None => None
  }

  /** `name=length:bytes` and the end of the line. */
  function ReadSizedField(name: seq<Byte>, input: seq<Byte>): Option<Piece<seq<Byte>>> {
    match Expect(name, input)
    case None => None
    case Some(rest) =>
      match ReadSized(rest)
      case None => None
      case Some(piece) =>
        match Expect([NEWLINE], piece.rest) case Some(more) => Some(Piece(piece.value, more)) case None => None
  }

  function ReadBand(index: nat, input: seq<Byte>): Option<Piece<RewardBand>> {
    match ReadSizedField(FieldName(index, "key"), input)
    case None => None
    case Some(key) =>
      match ReadNumberField(FieldName(index, "weight"), key.rest)
      case None => None
      case Some(weight) =>
        match (ReadNumberField(FieldName(index, "value"), weight.rest), DecodeUtf8(key.value))
        case (Some(value), Some(text)) => Some(Piece(RewardBand(text, weight.value, value.value), value.rest))
        case _ => None
  }

  function ReadBands(index: nat, count: nat, input: seq<Byte>): Option<seq<RewardBand>>
    decreases count - index
  {
    if index >= count then (if input == [] then Some([]) else None)
    else
      match ReadBand(index, input)
      case None => None
      case Some(band) =>
        match ReadBands(index + 1, count, band.rest) case Some(more) => Some([band.value] + more) case None => None
  }

  function ReadMapping(input: seq<Byte>): Option<seq<RewardBand>> {
    match Expect(Ascii(MAP_HEADER), input)
    case None => None
    case Some(body) =>
      match ReadNumberField(Ascii("reward_count="), body)
      case Some(count) => ReadBands(0, count.value, count.rest)
      case None => None
  }

  lemma NumberFieldRead(name: seq<Byte>, n: nat, rest: seq<Byte>)
    ensures ReadNumberField(name, name + (NumberLine(n) + rest)) == Some(Piece(n, rest))
  {
    hide ReadNumber, Decimal, Ascii;
    ExpectRead(name, NumberLine(n) + rest);
    NumberRead(n, NEWLINE, rest);
  }

  lemma SizedFieldRead(name: seq<Byte>, bytes: seq<Byte>, rest: seq<Byte>)
    ensures ReadSizedField(name, name + (Sized(bytes) + ([NEWLINE] + rest))) == Some(Piece(bytes, rest))
  {
    hide ReadSized, Sized;
    ExpectRead(name, Sized(bytes) + ([NEWLINE] + rest));
    SizedRead(bytes, [NEWLINE] + rest);
    ExpectRead([NEWLINE], rest);
  }

  lemma BandRead(index: nat, band: RewardBand, rest: seq<Byte>)
    requires ValidBand(band)
    ensures ReadBand(index, BandBytes(index, band) + rest) == Some(Piece(band, rest))
  {
    var last := FieldName(index, "value") + (NumberLine(band.value) + rest);
    var middle := FieldName(index, "weight") + (NumberLine(band.weight) + last);
    var all := FieldName(index, "key") + (Sized(KeyBytes(band)) + ([NEWLINE] + middle));
    BandLines(index, band, rest);
    hide ReadNumberField, ReadSizedField, Sized, NumberLine, FieldName, DecodeUtf8, Utf8, BandBytes;
    SizedFieldRead(FieldName(index, "key"), KeyBytes(band), middle);
    NumberFieldRead(FieldName(index, "weight"), band.weight, last);
    NumberFieldRead(FieldName(index, "value"), band.value, rest);
    Utf8RoundTrip(band.key);
  }

  lemma BandLines(index: nat, band: RewardBand, rest: seq<Byte>)
    requires ValidBand(band)
    ensures var last := FieldName(index, "value") + (NumberLine(band.value) + rest);
      var middle := FieldName(index, "weight") + (NumberLine(band.weight) + last);
      BandBytes(index, band) + rest == FieldName(index, "key") + (Sized(KeyBytes(band)) + ([NEWLINE] + middle))
  {
    hide Sized, NumberLine, FieldName, KeyBytes, Utf8;
    var k, s, w, n, v, m := FieldName(index, "key"), Sized(KeyBytes(band)), FieldName(index, "weight"), NumberLine(band.weight),
                            FieldName(index, "value"), NumberLine(band.value);
    SixPieces(k, s, [NEWLINE], w, n, v, m, rest);
  }

  lemma SixPieces(a: seq<Byte>, b: seq<Byte>, c: seq<Byte>, d: seq<Byte>, e: seq<Byte>, f: seq<Byte>, g: seq<Byte>,
                  rest: seq<Byte>)
    ensures a + (b + (c + (d + (e + (f + g))))) + rest == a + (b + (c + (d + (e + (f + (g + rest))))))
  {
    assert f + g + rest == f + (g + rest);
    assert e + (f + g) + rest == e + (f + g + rest);
    assert d + (e + (f + g)) + rest == d + (e + (f + g) + rest);
    assert c + (d + (e + (f + g))) + rest == c + (d + (e + (f + g)) + rest);
    assert b + (c + (d + (e + (f + g)))) + rest == b + (c + (d + (e + (f + g))) + rest);
    assert a + (b + (c + (d + (e + (f + g))))) + rest == a + (b + (c + (d + (e + (f + g)))) + rest);
  }

  lemma {:induction false} BandsRead(index: nat, bands: seq<RewardBand>)
    requires index <= |bands| && forall i | 0 <= i < |bands| :: ValidBand(bands[i])
    ensures ReadBands(index, |bands|, BandsBytes(index, bands)) == Some(bands[index..])
    decreases |bands| - index
  {
    hide BandBytes, ReadBand, ValidBand;
    if index < |bands| {
      BandsRead(index + 1, bands);
      BandRead(index, bands[index], BandsBytes(index + 1, bands));
      assert bands[index..] == [bands[index]] + bands[index + 1..];
    }
  }

  /** Every valid map can be read back from its bytes, also when keys contain newlines, digits or brackets. */
  lemma MappingRoundTrip(bands: seq<RewardBand>)
    requires ValidBands(bands)
    ensures ReadMapping(DailySpinMappingBytes(bands)) == Some(bands)
  {
    hide ReadBands, BandsBytes, ReadNumberField, NumberLine, Ascii, UniqueKeys, ValidBand;
    var body := Ascii("reward_count=") + (NumberLine(|bands|) + BandsBytes(0, bands));
    ExpectRead(Ascii(MAP_HEADER), body);
    NumberFieldRead(Ascii("reward_count="), |bands|, BandsBytes(0, bands));
    BandsRead(0, bands);
    assert bands[0..] == bands;
  }

  lemma MappingInjective(a: seq<RewardBand>, b: seq<RewardBand>)
    requires ValidBands(a) && ValidBands(b)
    ensures DailySpinMappingBytes(a) == DailySpinMappingBytes(b) ==> a == b
  {
    hide DailySpinMappingBytes, ReadMapping, ValidBands;
    MappingRoundTrip(a);
    MappingRoundTrip(b);
  }

  // ---------- the derivation message ----------

  const MAX_NONCE: nat := 0xFFFF_FFFF_FFFF_FFFF
  const DAILY_SPIN_GAME_KEY: string := "daily_spin"

  /** One to sixty-four printable ASCII characters. */
  predicate ValidClientSeed(seed: seq<CodePoint>) {
    match Utf8(seed)
    case Some(bytes) => 1 <= |bytes| <= 64 && forall i | 0 <= i < |bytes| :: 0x21 <= bytes[i] <= 0x7E
    case None => false
  }

  datatype MessageInput = MessageInput(clientSeed: seq<CodePoint>, nonce: int, configVersionId: Uuid, sessionId: Uuid,
                                       mappingDigest: string, attempt: nat)

  predicate ValidMessageInput(m: MessageInput) {
    ValidClientSeed(m.clientSeed) && 0 <= m.nonce <= MAX_NONCE && IsDigestText(m.mappingDigest)
  }

  const MESSAGE_HEADER: string := "RNG-GAME-PLATFORM-PVF/1\nalgorithm=hmac-sha256\nprotocol=rng-game-platform-pvf-v1\n"
  const PURPOSE: string := "purpose=daily_spin\nmapping_version=daily-spin-weighted-reward-v1\n"

  function TextLine(text: string): seq<Byte> {
    Ascii(text) + [NEWLINE]
  }

  /** The message from the nonce on. */
  function MessageTail(m: MessageInput): seq<Byte>
    requires m.nonce >= 0
  {
    Ascii("nonce=") + (NumberLine(m.nonce) + (Ascii(PURPOSE)
    + (Ascii("mapping_digest=") + (TextLine(m.mappingDigest)
    + (Ascii("attempt=") + (NumberLine(m.attempt) + []))))))
  }

  /** `daily_spin_derivation_message` of valid inputs. */
  function DerivationMessage(m: MessageInput): seq<Byte>
    requires ValidMessageInput(m)
  {
    Ascii(MESSAGE_HEADER) + (Ascii("game_key=") + (Sized(Ascii(DAILY_SPIN_GAME_KEY)) + ([NEWLINE]
    + (Ascii("config_version_id=") + (TextLine(UuidText(m.configVersionId))
    + (Ascii("session_id=") + (TextLine(UuidText(m.sessionId))
    + (Ascii("client_seed=") + (Sized(Utf8(m.clientSeed).value) + ([NEWLINE]
    + MessageTail(m)))))))))))
  }

  function ReadTextField(name: seq<Byte>, input: seq<Byte>): Option<Piece<seq<Byte>>> {
    match Expect(name, input) case Some(rest) => UpTo(NEWLINE, rest) case None => None
  }

  /** What a message says, with identifiers and digest as the bytes they are printed as. */
  datatype MessageFields = MessageFields(gameKey: seq<Byte>, configVersionId: seq<Byte>, sessionId: seq<Byte>,
                                         clientSeed: seq<Byte>, nonce: nat, mappingDigest: seq<Byte>, attempt: nat)

  function ReadTail(input: seq<Byte>): Option<(nat, seq<Byte>, nat)> {
    match ReadNumberField(Ascii("nonce="), input)
    case None => None
    case Some(nonce) =>
      match Expect(Ascii(PURPOSE), nonce.rest)
      case None => None
      case Some(rest) =>
        match ReadTextField(Ascii("mapping_digest="), rest)
        case None => None
        case Some(digest) =>
          match ReadNumberField(Ascii("attempt="), digest.rest)
          case Some(attempt) => Some((nonce.value, digest.value, attempt.value))
          case None => None
  }

  function ReadMessage(input: seq<Byte>): Option<MessageFields> {
    match Expect(Ascii(MESSAGE_HEADER), input)
    case None => None
    case Some(body) =>
      match ReadSizedField(Ascii("game_key="), body)
      case None => None
      case Some(game) =>
        match ReadTextField(Ascii("config_version_id="), game.rest)
        case None => None
        case Some(config) =>
          match ReadTextField(Ascii("session_id="), config.rest)
          case None => None
          case Some(session) =>
            match ReadSizedField(Ascii("client_seed="), session.rest)
            case None => None
            case Some(seed) =>
              match ReadTail(seed.rest)
              case Some((nonce, digest, attempt)) =>
                Some(MessageFields(game.value, config.value, session.value, seed.value, nonce, digest, attempt))
              case None => None
  }

  lemma TextFieldRead(name: seq<Byte>, text: string, rest: seq<Byte>)
    requires NEWLINE !in Ascii(text)
    ensures ReadTextField(name, name + (TextLine(text) + rest)) == Some(Piece(Ascii(text), rest))
  {
    hide UpTo, Ascii;
    ExpectRead(name, TextLine(text) + rest);
    UpToRead(NEWLINE, Ascii(text), rest);
  }

  lemma TailRead(m: MessageInput)
    requires ValidMessageInput(m)
    ensures ReadTail(MessageTail(m)) == Some((m.nonce, Ascii(m.mappingDigest), m.attempt))
  {
    DigitTextIsAscii(m.mappingDigest);
    hide ReadNumberField, ReadTextField, NumberLine, TextLine, Ascii, IsDigestText, ValidClientSeed, Expect;
    var afterDigest := Ascii("attempt=") + (NumberLine(m.attempt) + []);
    var afterPurpose := Ascii("mapping_digest=") + (TextLine(m.mappingDigest) + afterDigest);
    NumberFieldRead(Ascii("nonce="), m.nonce, Ascii(PURPOSE) + afterPurpose);
    ExpectRead(Ascii(PURPOSE), afterPurpose);
    TextFieldRead(Ascii("mapping_digest="), m.mappingDigest, afterDigest);
    NumberFieldRead(Ascii("attempt="), m.attempt, []);
  }

  lemma UuidTextIsAscii(u: Uuid)
    ensures IsAscii(UuidText(u)) && NEWLINE !in Ascii(UuidText(u))
  {
    PrintedIsDigits(u, 16, 32);
    UuidDigits(u);
    var text := Digits(u, 16, 32);
    hide Digits;
    DashIsAscii(text, 20);
    DashIsAscii(Dash(text, 20), 16);
    DashIsAscii(Dash(Dash(text, 20), 16), 12);
    DashIsAscii(Dash(Dash(Dash(text, 20), 16), 12), 8);
  }

  predicate OneLine(text: string) {
    forall i | 0 <= i < |text| :: text[i] as nat < 128 && text[i] != '\n'
  }

  lemma DashIsAscii(text: string, at: nat)
    requires at <= |text| && OneLine(text)
    ensures OneLine(Dash(text, at))
  {
  }

  /** Every message can be read back field by field. */
  lemma MessageRead(m: MessageInput)
    requires ValidMessageInput(m)
    ensures ReadMessage(DerivationMessage(m))
         == Some(MessageFields(Ascii(DAILY_SPIN_GAME_KEY), Ascii(UuidText(m.configVersionId)), Ascii(UuidText(m.sessionId)),
                               Utf8(m.clientSeed).value, m.nonce, Ascii(m.mappingDigest), m.attempt))
  {
    UuidTextIsAscii(m.configVersionId);
    UuidTextIsAscii(m.sessionId);
    hide ReadTail, ReadTextField, ReadSizedField, MessageTail, Sized, TextLine, Ascii, IsDigestText, UuidText, Expect,
         Utf8;
    var afterSession := Ascii("client_seed=") + (Sized(Utf8(m.clientSeed).value) + ([NEWLINE] + MessageTail(m)));
    var afterConfig := Ascii("session_id=") + (TextLine(UuidText(m.sessionId)) + afterSession);
    var afterGame := Ascii("config_version_id=") + (TextLine(UuidText(m.configVersionId)) + afterConfig);
    var body := Ascii("game_key=") + (Sized(Ascii(DAILY_SPIN_GAME_KEY)) + ([NEWLINE] + afterGame));
    ExpectRead(Ascii(MESSAGE_HEADER), body);
    SizedFieldRead(Ascii("game_key="), Ascii(DAILY_SPIN_GAME_KEY), afterGame);
    TextFieldRead(Ascii("config_version_id="), UuidText(m.configVersionId), afterConfig);
    TextFieldRead(Ascii("session_id="), UuidText(m.sessionId), afterSession);
    SizedFieldRead(Ascii("client_seed="), Utf8(m.clientSeed).value, MessageTail(m));
    TailRead(m);
  }

  lemma UuidTextInjective(u: Uuid, v: Uuid)
    requires UuidText(u) == UuidText(v)
    ensures u == v
  {
    UuidTextOrder(u, v);
    UuidTextOrder(v, u);
    LexIrreflexive(UuidText(u));
  }

  /** No two different inputs share a message. */
  lemma MessageInjective(a: MessageInput, b: MessageInput)
    requires ValidMessageInput(a) && ValidMessageInput(b) && DerivationMessage(a) == DerivationMessage(b)
    ensures a == b
  {
    MessageRead(a);
    MessageRead(b);
    UuidTextIsAscii(a.configVersionId);
    UuidTextIsAscii(b.configVersionId);
    UuidTextIsAscii(a.sessionId);
    UuidTextIsAscii(b.sessionId);
    hide DerivationMessage, ReadMessage, UuidText, Utf8, Ascii;
    SameText(UuidText(a.configVersionId), UuidText(b.configVersionId));
    SameText(UuidText(a.sessionId), UuidText(b.sessionId));
    DigitTextIsAscii(a.mappingDigest);
    DigitTextIsAscii(b.mappingDigest);
    SameText(a.mappingDigest, b.mappingDigest);
    UuidTextInjective(a.configVersionId, b.configVersionId);
    UuidTextInjective(a.sessionId, b.sessionId);
    Utf8Injective(a.clientSeed, b.clientSeed);
  }

  lemma SameText(a: string, b: string)
    requires IsAscii(a) && IsAscii(b) && Ascii(a) == Ascii(b)
    ensures a == b
  {
    AsciiRoundTrip(a);
    AsciiRoundTrip(b);
  }

  // ---------- the formats, written out ----------

  lemma Punctuation()
    ensures Ascii("\n") == [10] && Ascii(":") == [58]
  {
  }

  /** The lines of the bands from `index` on, written out. */
  function MapLines(index: nat, bands: seq<RewardBand>): seq<Byte>
    requires index <= |bands| && forall i | 0 <= i < |bands| :: ValidBand(bands[i])
    decreases |bands| - index
  {
    if index == |bands| then []
    else
      assert ValidBand(bands[index]);
      var key := Utf8(bands[index].key).value;
      (Ascii("reward[" + Decimal(index) + "]." + "key" + "=") + ((Ascii(Decimal(|key|)) + Ascii(":") + key) + (Ascii("\n")
      + (Ascii("reward[" + Decimal(index) + "]." + "weight" + "=") + ((Ascii(Decimal(bands[index].weight)) + Ascii("\n"))
      + (Ascii("reward[" + Decimal(index) + "]." + "value" + "=") + (Ascii(Decimal(bands[index].value)) + Ascii("\n"))))))))
      + MapLines(index + 1, bands)
  }

  lemma {:induction false} BandsAreLines(index: nat, bands: seq<RewardBand>)
    requires index <= |bands| && forall i | 0 <= i < |bands| :: ValidBand(bands[i])
    ensures BandsBytes(index, bands) == MapLines(index, bands)
    decreases |bands| - index
  {
    Punctuation();
    hide Decimal, Ascii, Utf8;
    if index < |bands| {
      assert ValidBand(bands[index]);
      BandsAreLines(index + 1, bands);
    }
  }

  /** The bytes of a map are those of the frozen format. */
  lemma MappingIsText(bands: seq<RewardBand>)
    requires ValidBands(bands)
    ensures DailySpinMappingBytes(bands)
         == Ascii("RNG-GAME-PLATFORM-DAILY-SPIN-MAP/1\n")
            + (Ascii("reward_count=") + ((Ascii(Decimal(|bands|)) + Ascii("\n")) + MapLines(0, bands)))
  {
    Punctuation();
    hide Decimal, Ascii, BandsBytes, MapLines, ValidBand, UniqueKeys;
    BandsAreLines(0, bands);
  }

  /** The bytes of a message are those of the frozen format. */
  lemma MessageIsText(m: MessageInput)
    requires ValidMessageInput(m)
    ensures var seed := Utf8(m.clientSeed).value;
      DerivationMessage(m)
      == Ascii("RNG-GAME-PLATFORM-PVF/1\nalgorithm=hmac-sha256\nprotocol=rng-game-platform-pvf-v1\n")
         + (Ascii("game_key=") + ((Ascii(Decimal(10)) + Ascii(":") + Ascii("daily_spin")) + (Ascii("\n")
         + (Ascii("config_version_id=") + ((Ascii(UuidText(m.configVersionId)) + Ascii("\n"))
         + (Ascii("session_id=") + ((Ascii(UuidText(m.sessionId)) + Ascii("\n"))
         + (Ascii("client_seed=") + ((Ascii(Decimal(|seed|)) + Ascii(":") + seed) + (Ascii("\n")
         + (Ascii("nonce=") + ((Ascii(Decimal(m.nonce)) + Ascii("\n"))
         + (Ascii("purpose=daily_spin\nmapping_version=daily-spin-weighted-reward-v1\n")
         + (Ascii("mapping_digest=") + ((Ascii(m.mappingDigest) + Ascii("\n"))
         + (Ascii("attempt=") + ((Ascii(Decimal(m.attempt)) + Ascii("\n")) + [])))))))))))))))))
  {
    Punctuation();
    assert |Ascii(DAILY_SPIN_GAME_KEY)| == 10;
    hide Decimal, Ascii, UuidText, Utf8, IsDigestText;
  }
}
