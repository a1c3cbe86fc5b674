/**
 Raw chain logs to stored logs to token transfers: hexadecimal text, big-endian words and the
 ERC-20 / ERC-721 Transfer event (EIP-20 and EIP-721, event Transfer).
 */
module TokenDecode {
  import opened Prelude
  import opened Folds
  import opened Rows

  newtype byte = x: int | 0 <= x < 256

  /** Selector shared by the ERC-20 and ERC-721 Transfer events, as stored text. */
  const SELECTOR_HEX: string :=
    "ddf252ad1be2c89b" + "69c2b068fc378daa" + "952ba7f163c4a116" + "28f55a4df523b3ef"
  const TRANSFER_TOPIC0: string := "0x" + SELECTOR_HEX

  // ---------- hexadecimal text ----------

  function HexDigit(v: int): char
    requires 0 <= v < 16
  {
    if v < 10 then ('0' as int + v) as char else ('a' as int + v - 10) as char
  }

  function HexEncode(bytes: seq<byte>): (s: string)
    ensures |s| == 2 * |bytes|
  {
    if bytes == [] then ""
    else
      var b := bytes[0] as int;
      [HexDigit(b / 16), HexDigit(b % 16)] + HexEncode(bytes[1..])
  }

  function DigitValue(c: char): (r: Option<int>)
    ensures r.Some? ==> 0 <= r.value < 16
  {
    if '0' <= c <= '9' then Some(c as int - '0' as int)
    else if 'a' <= c <= 'f' then Some(c as int - 'a' as int + 10)
    else if 'A' <= c <= 'F' then Some(c as int - 'A' as int + 10)
    else None
  }

  /** Strict decoding: an odd length or a character that is not a digit fails. */
  function HexDecode(s: string): Option<seq<byte>> {
    if s == "" then Some([])
    else if |s| == 1 then None
    else
      match (DigitValue(s[0]), DigitValue(s[1]), HexDecode(s[2..]))
      case (Some(hi), Some(lo), Some(rest)) => Some([(16 * hi + lo) as byte] + rest)
      case _ => None
  }

  predicate IsLowerHex(c: char) {
    '0' <= c <= '9' || 'a' <= c <= 'f'
  }

  predicate AllLowerHex(s: string) {
    forall i :: 0 <= i < |s| ==> IsLowerHex(s[i])
  }

  lemma {:induction false} HexRoundTrip(bytes: seq<byte>)
    ensures HexDecode(HexEncode(bytes)) == Some(bytes)
    ensures AllLowerHex(HexEncode(bytes))
  {
    if bytes != [] {
      var b := bytes[0] as int;
      HexRoundTrip(bytes[1..]);
      var s := HexEncode(bytes);
      assert s[2..] == HexEncode(bytes[1..]);
      assert bytes == [bytes[0]] + bytes[1..];
    }
  }

  lemma {:induction false} HexTextRoundTrip(s: string)
    requires |s| % 2 == 0 && AllLowerHex(s)
    ensures HexDecode(s).Some? && 2 * |HexDecode(s).value| == |s| && HexEncode(HexDecode(s).value) == s
  {
    if s != "" {
      assert IsLowerHex(s[0]) && IsLowerHex(s[1]);
      HexTextRoundTrip(s[2..]);
      var hi, lo := DigitValue(s[0]).value, DigitValue(s[1]).value;
      assert (16 * hi + lo) / 16 == hi && (16 * hi + lo) % 16 == lo;
      assert HexDigit(hi) == s[0] && HexDigit(lo) == s[1];
      var bytes := HexDecode(s).value;
      assert bytes[1..] == HexDecode(s[2..]).value;
      assert s == [s[0], s[1]] + s[2..];
    }
  }

  /** Drop every leading "0x", as repeated prefix trimming does. */
  function TrimPrefix(s: string): string {
    if |s| >= 2 && s[0] == '0' && s[1] == 'x' then TrimPrefix(s[2..]) else s
  }

  function Hex0x(bytes: seq<byte>): string {
    "0x" + HexEncode(bytes)
  }

  lemma {:induction false} TrimHex0x(bytes: seq<byte>)
    ensures TrimPrefix(Hex0x(bytes)) == HexEncode(bytes)
  {
    var s := HexEncode(bytes);
    HexRoundTrip(bytes);
    assert Hex0x(bytes)[2..] == s;
    if |s| >= 2 {
      assert IsLowerHex(s[1]);
    }
  }

  lemma {:induction false} Hex0xInjective(a: seq<byte>, b: seq<byte>)
    requires Hex0x(a) == Hex0x(b)
    ensures a == b
  {
    assert Hex0x(a)[2..] == HexEncode(a) && Hex0x(b)[2..] == HexEncode(b);
    HexRoundTrip(a);
    HexRoundTrip(b);
  }

  // ---------- big-endian words ----------

  function FromBigEndian(bytes: seq<byte>): nat {
    if bytes == [] then 0 else 256 * FromBigEndian(bytes[..|bytes| - 1]) + bytes[|bytes| - 1] as int
  }

  function ToBigEndian(v: nat, width: nat): (bytes: seq<byte>)
    ensures |bytes| == width
  {
    if width == 0 then [] else ToBigEndian(v / 256, width - 1) + [(v % 256) as byte]
  }

  function Pow256(n: nat): nat {
    if n == 0 then 1 else 256 * Pow256(n - 1)
  }

  lemma {:induction false} BigEndianRoundTrip(v: nat, width: nat)
    requires v < Pow256(width)
    ensures FromBigEndian(ToBigEndian(v, width)) == v
  {
    if width > 0 {
      BigEndianRoundTrip(v / 256, width - 1);
      assert ToBigEndian(v, width)[..width - 1] == ToBigEndian(v / 256, width - 1);
    }
  }

  // ---------- to_domain_log ----------

  /** A log as `eth_getLogs` returns it; block number and log index are u64 and may be missing. */
  datatype RawLog = RawLog(
    blockNumber: Option<nat>, logIndex: Option<nat>, txHash: Option<seq<byte>>,
    address: seq<byte>, topics: seq<seq<byte>>, data: seq<byte>)

  const I32_MAX: int := 0x7fff_ffff

  /** The `as i64` cast from u64 wraps: the one value of the signed range that is congruent to `v`. */
  function AsI64(v: nat): (r: int)
    ensures -0x8000_0000_0000_0000 <= r < 0x8000_0000_0000_0000 && (v - r) % 0x1_0000_0000_0000_0000 == 0
  {
    var w := v % 0x1_0000_0000_0000_0000;
    if w < 0x8000_0000_0000_0000 then w else w - 0x1_0000_0000_0000_0000
  }

  function Topic(raw: RawLog, i: nat): Option<string> {
    if i < |raw.topics| then Some(Hex0x(raw.topics[i])) else None
  }

  function ToDomainLog(raw: RawLog): Result<Log> {
    if raw.blockNumber.None? then Err(MissingField)
    else if raw.logIndex.None? then Err(MissingField)
    else if raw.logIndex.value > I32_MAX then Err(OutOfRange)
    else if raw.txHash.None? then Err(MissingField)
    else Ok(Log(AsI64(raw.blockNumber.value), Hex0x(raw.txHash.value), raw.logIndex.value, Hex0x(raw.address),
                Topic(raw, 0), Topic(raw, 1), Topic(raw, 2), Topic(raw, 3), Some(Hex0x(raw.data))))
  }

  /** The row of a raw log, field by field. */
  ghost predicate IsLogOf(raw: RawLog, l: Log) {
    && raw.blockNumber.Some? && l.blockHeight == AsI64(raw.blockNumber.value)
    && raw.txHash.Some? && l.txHash == Hex0x(raw.txHash.value)
    && raw.logIndex.Some? && l.logIndex == raw.logIndex.value <= 0x7fff_ffff
    && l.address == Hex0x(raw.address) && l.data == Some(Hex0x(raw.data))
    && l.topic0 == (if |raw.topics| > 0 then Some(Hex0x(raw.topics[0])) else None)
    && l.topic1 == (if |raw.topics| > 1 then Some(Hex0x(raw.topics[1])) else None)
    && l.topic2 == (if |raw.topics| > 2 then Some(Hex0x(raw.topics[2])) else None)
    && l.topic3 == (if |raw.topics| > 3 then Some(Hex0x(raw.topics[3])) else None)
  }

  /** A raw log that can be stored has exactly one row; one that lacks a field or has a wide index has none. */
  lemma {:induction false} DomainLogExact(raw: RawLog, l: Log)
    ensures ToDomainLog(raw) == Ok(l) <==> IsLogOf(raw, l)
    ensures ToDomainLog(raw).Ok? <==>
            raw.blockNumber.Some? && raw.txHash.Some? && raw.logIndex.Some? && raw.logIndex.value <= 0x7fff_ffff
  {
  }

  lemma {:induction false} TextRecovers(bytes: seq<byte>)
    ensures HexDecode(TrimPrefix(Hex0x(bytes))) == Some(bytes)
  {
    TrimHex0x(bytes);
    HexRoundTrip(bytes);
  }

  /** A stored topic is there when the raw one is, and decodes back to it. */
  ghost predicate TopicRecovers(raw: RawLog, text: Option<string>, i: nat) {
    if i < |raw.topics| then text.Some? && HexDecode(TrimPrefix(text.value)) == Some(raw.topics[i]) else text.None?
  }

  /** The stored text decodes back to the bytes of the log, so logs that differ in them have different rows. */
  lemma {:induction false} StoredLogRecovers(raw: RawLog, l: Log)
    requires IsLogOf(raw, l)
    ensures HexDecode(TrimPrefix(l.txHash)) == raw.txHash && HexDecode(TrimPrefix(l.address)) == Some(raw.address)
    ensures HexDecode(TrimPrefix(l.data.value)) == Some(raw.data)
    ensures TopicRecovers(raw, l.topic0, 0) && TopicRecovers(raw, l.topic1, 1)
    ensures TopicRecovers(raw, l.topic2, 2) && TopicRecovers(raw, l.topic3, 3)
  {
    TextRecovers(raw.txHash.value);
    TextRecovers(raw.address);
    TextRecovers(raw.data);
    TopicText(raw, l.topic0, 0);
    TopicText(raw, l.topic1, 1);
    TopicText(raw, l.topic2, 2);
    TopicText(raw, l.topic3, 3);
  }

  lemma {:induction false} TopicText(raw: RawLog, text: Option<string>, i: nat)
    requires text == if i < |raw.topics| then Some(Hex0x(raw.topics[i])) else None
    ensures TopicRecovers(raw, text, i)
  {
    if i < |raw.topics| {
      TextRecovers(raw.topics[i]);
    }
  }

  // ---------- decode_transfer ----------

  /** Last 20 bytes of a 32-byte topic; the digits are not validated. */
  function TopicToAddress(topic: string): Option<Address> {
    var hex := TrimPrefix(topic);
    if |hex| != 64 then None else Some("0x" + hex[24..])
  }

  /** A 32-byte topic or data word as a number. */
  function WordToNat(word: string): Option<nat> {
    var hex := TrimPrefix(word);
    if |hex| != 64 then None
    else
      match HexDecode(hex)
      case None => None
      case Some(bytes) => Some(FromBigEndian(bytes))
  }

  function DecodeTransfer(log: Log): Option<TokenTransfer> {
    if log.topic0 != Some(TRANSFER_TOPIC0) || log.topic1.None? || log.topic2.None? then None
    else
      match (TopicToAddress(log.topic1.value), TopicToAddress(log.topic2.value))
      case (Some(from), Some(to)) =>
        if log.topic3.Some? then
          if log.data.Some? && TrimPrefix(log.data.value) != "" then None
          else
            var id := WordToNat(log.topic3.value);
            if id.None? then None else Some(TransferRow(log, Erc721, from, to, id, 1))
        else if log.data.None? then None
        else
          var amount := WordToNat(log.data.value);
          if amount.None? then None else Some(TransferRow(log, Erc20, from, to, None, amount.value))
      case _ => None
  }

  function TransferRow(
      log: Log, standard: TokenStandard, from: Address, to: Address, id: Option<nat>, amount: nat): TokenTransfer {
    TokenTransfer(log.blockHeight, log.txHash, log.logIndex, log.address, standard, from, to, id, amount)
  }

  /** The transfers of a list of logs, in log order. */
  function DecodeAll(logs: seq<Log>): seq<TokenTransfer> {
    if logs == [] then []
    else
      var rest := DecodeAll(logs[..|logs| - 1]);
      match DecodeTransfer(logs[|logs| - 1])
      case None => rest
      case Some(t) => rest + [t]
  }

  /** Exactly the decodable logs contribute a transfer, under the log's own coordinates. */
  lemma {:induction false} DecodeAllIsImage(logs: seq<Log>)
    ensures forall l :: l in logs && DecodeTransfer(l).Some? ==> DecodeTransfer(l).value in DecodeAll(logs)
    ensures forall t :: t in DecodeAll(logs) ==> exists l :: l in logs && DecodeTransfer(l) == Some(t)
  {
    if logs != [] {
      var init, l := logs[..|logs| - 1], logs[|logs| - 1];
      assert logs == init + [l];
      DecodeAllIsImage(init);
      forall t | t in DecodeAll(logs) ensures exists k :: k in logs && DecodeTransfer(k) == Some(t) {
        if t in DecodeAll(init) {
          var k :| k in init && DecodeTransfer(k) == Some(t);
          assert k in logs;
        } else {
          assert l in logs && DecodeTransfer(l) == Some(t);
        }
      }
    }
  }

  /** Exactly the decodable logs contribute a transfer, each once and in log order. */
  lemma {:induction false} DecodeAllInOrder(logs: seq<Log>) returns (at: seq<nat>)
    ensures Gathers(logs, DecodeTransfer, DecodeAll(logs), at)
  {
    at := [];
    if logs != [] {
      var init, last := logs[..|logs| - 1], logs[|logs| - 1];
      at := DecodeAllInOrder(init);
      GathersSnoc(init, last, DecodeTransfer, DecodeAll(init), at);
      assert logs == init + [last];
      if DecodeTransfer(last).Some? {
        at := at + [|init|];
      }
    }
  }

  // ---------- correctness over all raw logs ----------

  ghost predicate IsTransferEvent(raw: RawLog) {
    |raw.topics| >= 1 && Hex0x(raw.topics[0]) == TRANSFER_TOPIC0
  }

  /** Words where the event has words: sender, receiver, and the amount or the id. */
  ghost predicate IsTransferShaped(raw: RawLog) {
    && IsTransferEvent(raw) && |raw.topics| >= 3 && |raw.topics[1]| == |raw.topics[2]| == 32
    && (if |raw.topics| == 3 then |raw.data| == 32 else |raw.data| == 0 && |raw.topics[3]| == 32)
  }

  lemma {:induction false} TopicAddressOf(topic: seq<byte>)
    ensures TopicToAddress(Hex0x(topic)) == if |topic| == 32 then Some(Hex0x(topic[12..])) else None
  {
    TrimHex0x(topic);
    if |topic| == 32 {
      HexSuffix(topic, 12);
    }
  }

  lemma {:induction false} HexSuffix(bytes: seq<byte>, k: nat)
    requires k <= |bytes|
    ensures HexEncode(bytes)[2 * k..] == HexEncode(bytes[k..])
  {
    if k > 0 {
      HexSuffix(bytes[1..], k - 1);
      assert HexEncode(bytes)[2..] == HexEncode(bytes[1..]);
      assert HexEncode(bytes)[2 * k..] == HexEncode(bytes)[2..][2 * (k - 1)..];
      assert bytes[1..][k - 1..] == bytes[k..];
    }
  }

  lemma {:induction false} WordOf(word: seq<byte>)
    ensures WordToNat(Hex0x(word)) == if |word| == 32 then Some(FromBigEndian(word)) else None
  {
    TrimHex0x(word);
    HexRoundTrip(word);
  }

  /** The transfer sits at the log's place and moves between the addresses in the second and third topic. */
  ghost predicate MovesAt(raw: RawLog, t: TokenTransfer)
    requires |raw.topics| >= 3 && |raw.topics[1]| == |raw.topics[2]| == 32
  {
    && raw.blockNumber.Some? && t.blockHeight == AsI64(raw.blockNumber.value)
    && raw.txHash.Some? && t.txHash == Hex0x(raw.txHash.value)
    && raw.logIndex == Some(t.logIndex) && t.contract == Hex0x(raw.address)
    && t.fromAddr == Hex0x(raw.topics[1][12..]) && t.toAddr == Hex0x(raw.topics[2][12..])
  }

  /**
   For every raw log that converts, field by field: ERC-20 with the amount exactly with three topics and 32 data
   bytes, ERC-721 with the id exactly with a fourth topic and no data, and no transfer in every other case.
   */
  lemma {:induction false} DecodeClassifies(raw: RawLog, log: Log)
    requires ToDomainLog(raw) == Ok(log)
    ensures DecodeTransfer(log).Some? <==> IsTransferShaped(raw)
    ensures IsTransferShaped(raw) ==>
              var t := DecodeTransfer(log).value;
              && MovesAt(raw, t)
              && (if |raw.topics| == 3
                  then t.standard.Erc20? && t.tokenId.None? && t.amount == FromBigEndian(raw.data)
                  else t.standard.Erc721? && t.tokenId == Some(FromBigEndian(raw.topics[3])) && t.amount == 1)
  {
    if IsTransferEvent(raw) && |raw.topics| >= 3 {
      TopicAddressOf(raw.topics[1]);
      TopicAddressOf(raw.topics[2]);
      if |raw.topics| >= 4 {
        TrimHex0x(raw.data);
        WordOf(raw.topics[3]);
      } else {
        WordOf(raw.data);
      }
    }
  }

  // ---------- decoding inverts encoding ----------

  /** An address as an indexed argument: left-padded to 32 bytes. */
  function PadAddress(addr: seq<byte>): (topic: seq<byte>)
    requires |addr| == 20
    ensures |topic| == 32 && topic[12..] == addr
  {
    ToBigEndian(0, 12) + addr
  }

  function EncodeErc20(selector: seq<byte>, base: RawLog, from: seq<byte>, to: seq<byte>, amount: nat): RawLog
    requires |from| == 20 && |to| == 20
  {
    base.(topics := [selector, PadAddress(from), PadAddress(to)], data := ToBigEndian(amount, 32))
  }

  function EncodeErc721(selector: seq<byte>, base: RawLog, from: seq<byte>, to: seq<byte>, id: nat): RawLog
    requires |from| == 20 && |to| == 20
  {
    base.(topics := [selector, PadAddress(from), PadAddress(to), ToBigEndian(id, 32)], data := [])
  }

  /** The selector really is the text of a 32-byte word, and of exactly one. */
  lemma {:induction false} TransferSelector() returns (selector: seq<byte>)
    ensures |selector| == 32 && Hex0x(selector) == TRANSFER_TOPIC0
    ensures forall other :: Hex0x(other) == TRANSFER_TOPIC0 ==> other == selector
  {
    assert AllLowerHex("ddf252ad1be2c89b") && AllLowerHex("69c2b068fc378daa");
    assert AllLowerHex("952ba7f163c4a116") && AllLowerHex("28f55a4df523b3ef");
    HexTextRoundTrip(SELECTOR_HEX);
    selector := HexDecode(SELECTOR_HEX).value;
    forall other | Hex0x(other) == TRANSFER_TOPIC0 ensures other == selector {
      Hex0xInjective(other, selector);
    }
  }

  /** The transfer is that of `base`'s place and contract, between these addresses. */
  ghost predicate Moves(base: RawLog, t: TokenTransfer, from: seq<byte>, to: seq<byte>) {
    && base.blockNumber.Some? && t.blockHeight == AsI64(base.blockNumber.value)
    && base.txHash.Some? && t.txHash == Hex0x(base.txHash.value)
    && base.logIndex == Some(t.logIndex) && t.contract == Hex0x(base.address)
    && t.fromAddr == Hex0x(from) && t.toAddr == Hex0x(to)
  }

  /** Every address pair and every 256-bit amount survives encoding and decoding. */
  lemma {:induction false} Erc20RoundTrip(
      selector: seq<byte>, base: RawLog, from: seq<byte>, to: seq<byte>, amount: nat)
    requires |selector| == 32 && Hex0x(selector) == TRANSFER_TOPIC0
    requires |from| == 20 && |to| == 20
    requires amount < Pow256(32) && ToDomainLog(base).Ok?
    ensures var log := ToDomainLog(EncodeErc20(selector, base, from, to, amount));
            && log.Ok? && DecodeTransfer(log.value).Some?
            && var t := DecodeTransfer(log.value).value;
               Moves(base, t, from, to) && t.standard.Erc20? && t.tokenId.None? && t.amount == amount
  {
    var raw := EncodeErc20(selector, base, from, to, amount);
    DecodeClassifies(raw, ToDomainLog(raw).value);
    BigEndianRoundTrip(amount, 32);
  }

  lemma {:induction false} Erc721RoundTrip(selector: seq<byte>, base: RawLog, from: seq<byte>, to: seq<byte>, id: nat)
    requires |selector| == 32 && Hex0x(selector) == TRANSFER_TOPIC0
    requires |from| == 20 && |to| == 20
    requires id < Pow256(32) && ToDomainLog(base).Ok?
    ensures var log := ToDomainLog(EncodeErc721(selector, base, from, to, id));
            && log.Ok? && DecodeTransfer(log.value).Some?
            && var t := DecodeTransfer(log.value).value;
               Moves(base, t, from, to) && t.standard.Erc721? && t.tokenId == Some(id) && t.amount == 1
  {
    var raw := EncodeErc721(selector, base, from, to, id);
    DecodeClassifies(raw, ToDomainLog(raw).value);
    BigEndianRoundTrip(id, 32);
  }
}
