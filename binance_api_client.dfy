/** The Binance futures client's pure parts: the lower-case hexadecimal
    rendering of the HMAC signature bytes, and the reading of the position
    list, which skips flat positions and stops at the first malformed entry.
    The HTTP calls and the HMAC itself are library work; the JSON text arrives
    already split into records whose fields either parsed or did not. */
module BinanceApiClient {
  import opened Wrappers

  /** A JVM byte: signed, -128..127. */
  newtype Byte = x: int | -128 <= x < 128

  const HexChars := "0123456789abcdef"

  /** A character of HexChars. */
  predicate IsHexDigit(c: char) {
    '0' <= c <= '9' || 'a' <= c <= 'f'
  }

  /** `byte.toInt() and 0xff`: the byte read as unsigned. */
  function Unsigned(b: Byte): (i: int)
    ensures 0 <= i < 256
    ensures b >= 0 ==> i == b as int
    ensures b < 0 ==> i == b as int + 256
  {
    (b as int) % 256
  }

  /** The two characters one byte becomes: high nibble, then low nibble. */
  function HexPair(b: Byte): (r: string)
    ensures |r| == 2 && IsHexDigit(r[0]) && IsHexDigit(r[1])
  {
    var i := Unsigned(b);
    [HexChars[i / 16], HexChars[i % 16]]
  }

  /** The string bytesToHex builds. */
  function Hex(bytes: seq<Byte>): (r: string)
    ensures |r| == 2 * |bytes|
    ensures forall k :: 0 <= k < |r| ==> IsHexDigit(r[k])
  {
    if bytes == [] then [] else Hex(bytes[..|bytes| - 1]) + HexPair(bytes[|bytes| - 1])
  }

  /** bytesToHex: the StringBuilder loop, one pair per byte in order. */
  method BytesToHex(bytes: seq<Byte>) returns (result: string)
    ensures result == Hex(bytes)
  {
    result := [];
    var k := 0;
    while k < |bytes|
      invariant 0 <= k <= |bytes|
      invariant result == Hex(bytes[..k])
    {
      var i := Unsigned(bytes[k]);
      result := result + [HexChars[i / 16]];
      result := result + [HexChars[i % 16]];
      assert bytes[..k + 1][..k] == bytes[..k];
      k := k + 1;
    }
    assert bytes[..k] == bytes;
  }

  /** The value of one hexadecimal digit of the alphabet. */
  function HexValue(c: char): (v: int)
    requires IsHexDigit(c)
    ensures 0 <= v < 16 && HexChars[v] == c
  {
    if '0' <= c <= '9' then (c as int) - ('0' as int) else (c as int) - ('a' as int) + 10
  }

  /** A digit of the alphabet reads back as its own index. */
  lemma HexValueOfIndex(v: int)
    requires 0 <= v < 16
    ensures HexValue(HexChars[v]) == v
  {
  }

  /** Reads the text back: every two digits give one signed byte. */
  function Unhex(s: string): (r: seq<Byte>)
    requires |s| % 2 == 0
    requires forall k :: 0 <= k < |s| ==> IsHexDigit(s[k])
    ensures |r| == |s| / 2
  {
    if s == [] then []
    else
      var v := 16 * HexValue(s[|s| - 2]) + HexValue(s[|s| - 1]);
      Unhex(s[..|s| - 2]) + [Signed(v)]
  }

  /** The signed byte whose unsigned reading is `v`. */
  function Signed(v: int): Byte
    requires 0 <= v < 256
  {
    (if v >= 128 then v - 256 else v) as Byte
  }

  /** One pair of digits reads back as its byte. */
  lemma PairBack(b: Byte)
    ensures Signed(16 * HexValue(HexPair(b)[0]) + HexValue(HexPair(b)[1])) == b
  {
    var i := Unsigned(b);
    HexValueOfIndex(i / 16);
    HexValueOfIndex(i % 16);
    assert 16 * (i / 16) + i % 16 == i;
  }

  /** Decoding the hexadecimal text gives the bytes back, so no two byte
      strings share a signature text. */
  lemma {:induction false} UnhexHex(bytes: seq<Byte>)
    ensures Unhex(Hex(bytes)) == bytes
  {
    if bytes != [] {
      var init := bytes[..|bytes| - 1];
      UnhexHex(init);
      UnhexByte(Hex(init), bytes[|bytes| - 1]);
      InitAndLast(bytes);
    }
  }

  /** Decoding a text followed by the pair of one byte decodes that byte last. */
  lemma UnhexByte(s: string, b: Byte)
    requires |s| % 2 == 0 && forall k :: 0 <= k < |s| ==> IsHexDigit(s[k])
    ensures Unhex(s + HexPair(b)) == Unhex(s) + [b]
  {
    UnhexPair(s, HexPair(b));
    PairBack(b);
  }

  /** Decoding a text followed by one pair of digits decodes the pair last. */
  lemma UnhexPair(s: string, p: string)
    requires |s| % 2 == 0 && forall k :: 0 <= k < |s| ==> IsHexDigit(s[k])
    requires |p| == 2 && IsHexDigit(p[0]) && IsHexDigit(p[1])
    ensures Unhex(s + p) == Unhex(s) + [Signed(16 * HexValue(p[0]) + HexValue(p[1]))]
  {
    var t := s + p;
    assert t[..|t| - 2] == s;
    assert t[|t| - 2] == p[0] && t[|t| - 1] == p[1];
  }

  lemma InitAndLast(bytes: seq<Byte>)
    requires bytes != []
    ensures bytes == bytes[..|bytes| - 1] + [bytes[|bytes| - 1]]
  {
  }

  /** The encoding is injective. */
  lemma HexInjective(a: seq<Byte>, b: seq<Byte>)
    requires Hex(a) == Hex(b)
    ensures a == b
  {
    UnhexHex(a);
    UnhexHex(b);
  }

  // ------------------------------------------------------------ positions

  /** The fields of one position record after positionAmt, parsed; None when
      one of them is missing or malformed (the parse throws). */
  datatype PositionDetails = PositionDetails(entryPrice: real, markPrice: real, unRealizedProfit: real,
                                             liquidationPrice: real, leverage: int, marginType: string,
                                             isolatedMargin: Option<real>, isAutoAddMargin: bool,
                                             positionSide: string, updateTime: int)

  /** One element of the response array, field by field as the parser reads it. */
  datatype PositionRecord = PositionRecord(symbol: Option<string>, positionAmt: Option<real>,
                                           details: Option<PositionDetails>)

  datatype BinanceFutures = BinanceFutures(id: int, symbol: string, positionAmt: real, entryPrice: real,
                                           markPrice: real, unRealizedProfit: real, liquidationPrice: real,
                                           leverage: int, marginType: string, isolatedMargin: real,
                                           isAutoAddMargin: bool, positionSide: string, updateTime: int)

  /** The position built from record `i`. */
  function Position(i: int, symbol: string, amt: real, d: PositionDetails): BinanceFutures {
    BinanceFutures(i, symbol, amt, d.entryPrice, d.markPrice, d.unRealizedProfit, d.liquidationPrice,
                   d.leverage, d.marginType, d.isolatedMargin.GetOr(0.0), d.isAutoAddMargin,
                   d.positionSide, d.updateTime)
  }

  /** The positions read from records i, i+1, ...: a zero amount is skipped
      and the first malformed record ends the reading. */
  function PositionsFrom(records: seq<PositionRecord>, i: nat): (r: seq<BinanceFutures>)
    requires i <= |records|
    ensures forall k :: 0 <= k < |r| ==> r[k].positionAmt != 0.0 && i <= r[k].id < |records|
    ensures forall k :: 0 <= k < |r| ==> records[r[k].id].positionAmt == Some(r[k].positionAmt)
    ensures forall k, l :: 0 <= k < l < |r| ==> r[k].id < r[l].id
    decreases |records| - i
  {
    if i == |records| then []
    else
      var rec := records[i];
      if rec.symbol.None? || rec.positionAmt.None? then []
      else if rec.positionAmt.value == 0.0 then PositionsFrom(records, i + 1)
      else if rec.details.None? then []
      else [Position(i, rec.symbol.value, rec.positionAmt.value, rec.details.value)] + PositionsFrom(records, i + 1)
  }

  /** parsePositionResponse: a response that is not a JSON array gives none. */
  method ParsePositionResponse(response: Option<seq<PositionRecord>>) returns (positions: seq<BinanceFutures>)
    ensures response.None? ==> positions == []
    ensures response.Some? ==> positions == PositionsFrom(response.value, 0)
  {
    positions := [];
    if response.None? {
      return;
    }
    var records := response.value;
    var i := 0;
    while i < |records|
      invariant 0 <= i <= |records|
      invariant positions + PositionsFrom(records, i) == PositionsFrom(records, 0)
    {
      var rec := records[i];
      if rec.symbol.None? || rec.positionAmt.None? {
        return;
      }
      var positionAmt := rec.positionAmt.value;
      if positionAmt == 0.0 {
        i := i + 1;
        continue;
      }
      if rec.details.None? {
        return;
      }
      positions := positions + [Position(i, rec.symbol.value, positionAmt, rec.details.value)];
      i := i + 1;
    }
  }

  /** Every well-formed record with a non-zero amount is read when all records are well formed. */
  lemma AllWellFormedRead(records: seq<PositionRecord>, i: nat, j: nat)
    requires i <= j < |records|
    requires forall k :: i <= k < |records| ==>
      records[k].symbol.Some? && records[k].positionAmt.Some? && records[k].details.Some?
    requires records[j].positionAmt.value != 0.0
    ensures exists k :: 0 <= k < |PositionsFrom(records, i)| && PositionsFrom(records, i)[k].id == j
  {
    var k := ReadAt(records, i, j);
  }

  /** Where record j's position is in the list read from record i on. */
  lemma {:induction false} ReadAt(records: seq<PositionRecord>, i: nat, j: nat) returns (k: nat)
    requires i <= j < |records|
    requires forall k :: i <= k < |records| ==>
      records[k].symbol.Some? && records[k].positionAmt.Some? && records[k].details.Some?
    requires records[j].positionAmt.value != 0.0
    ensures k < |PositionsFrom(records, i)| && PositionsFrom(records, i)[k].id == j
    decreases j - i
  {
    WellFormedStep(records, i);
    if i == j {
      k := 0;
    } else {
      var t := ReadAt(records, i + 1, j);
      if records[i].positionAmt.value == 0.0 {
        k := t;
      } else {
        k := t + 1;
        assert PositionsFrom(records, i)[k] == PositionsFrom(records, i)[1..][t];
      }
    }
  }

  /** One well-formed record: skipped when its amount is zero, read first
      otherwise. */
  lemma WellFormedStep(records: seq<PositionRecord>, i: nat)
    requires i < |records|
    requires records[i].symbol.Some? && records[i].positionAmt.Some? && records[i].details.Some?
    ensures records[i].positionAmt.value == 0.0 ==> PositionsFrom(records, i) == PositionsFrom(records, i + 1)
    ensures records[i].positionAmt.value != 0.0 ==>
      |PositionsFrom(records, i)| > 0 && PositionsFrom(records, i)[0].id == i
      && PositionsFrom(records, i)[1..] == PositionsFrom(records, i + 1)
  {
  }
}
