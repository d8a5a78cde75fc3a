/**
 * The two request handlers the Nous quirk overrides on the Tuya MCU cluster: the time-sync
 * request (0x24), answered with the UTC and local times as 4-byte big-endian second counts,
 * and the gateway connection-status request (0x25), answered with "connected to internet".
 * Reading the clocks and sending the command are left to the caller: the clock readings are
 * parameters and the command the handler schedules is part of its result.
 */
module TuyaMcu {
  import opened Results
  import opened Bytes

  const TUYA_SET_TIME := 0x24
  const TUYA_MCU_CONNECTION_STATUS := 0x25

  /** The years `datetime.datetime(year, 1, 1)` accepts. */
  const MIN_YEAR := 1
  const MAX_YEAR := 9999

  const SECONDS_PER_DAY := 86400
  const MICROS_PER_SECOND := 1_000_000

  datatype Status = Success

  /** The status byte of a connection-status response. */
  datatype ConnectionState = NotConnected | Connected | TimedOut

  function ConnectionStateByte(state: ConnectionState): Byte {
    match state
    case NotConnected => 0x00
    case Connected => 0x01
    case TimedOut => 0x02
  }

  /** A `TuyaConnectionStatus` record: transaction sequence number and status bytes. */
  datatype ConnectionStatus = ConnectionStatus(tsn: Byte, status: seq<Byte>)

  datatype Payload = TimePayload(bytes: seq<Byte>) | ConnectionPayload(connection: ConnectionStatus)

  /** A command the handler schedules for sending. */
  datatype Command = Command(commandId: int, payload: Payload, expectReply: bool)

  /** What a handler returns to the dispatcher, with the command it scheduled. */
  datatype Response = Response(status: Status, sent: Command)

  /** The exceptions the time-sync handler can raise: `ValueError` and `OverflowError`. */
  datatype Error = YearOutOfRange(year: int) | TimestampOverflow(timestamp: int)

  /** The cluster's `set_time_offset` and `set_time_local_offset` (epoch years). */
  datatype TimeSettings = TimeSettings(setTimeOffset: int, setTimeLocalOffset: Option<int>)

  /**
   * The readings of `utcnow()` and `now()`: naive date-times, as microseconds since
   * 0001-01-01 00:00:00.
   */
  datatype Clock = Clock(utcNow: nat, localNow: nat)

  // ---------------------------------------------------------------- anchors

  /** `set_time_local_offset or set_time_offset`: a missing or zero local offset falls back. */
  function LocalAnchorYear(settings: TimeSettings): (year: int)
    ensures settings.setTimeLocalOffset in {None, Some(0)} ==> year == settings.setTimeOffset
    ensures settings.setTimeLocalOffset !in {None, Some(0)} ==> year == settings.setTimeLocalOffset.value
  {
    match settings.setTimeLocalOffset
    case Some(local) => if local != 0 then local else settings.setTimeOffset
    case None => settings.setTimeOffset
  }

  predicate ValidYear(year: int) {
    MIN_YEAR <= year <= MAX_YEAR
  }

  predicate IsLeapYear(year: int) {
    year % 4 == 0 && (year % 100 != 0 || year % 400 == 0)
  }

  /** Days from 0001-01-01 to January 1st of `year` in the proleptic Gregorian calendar. */
  function DaysBeforeYear(year: int): nat
    requires ValidYear(year)
  {
    var y := year - 1;
    365 * y + y / 4 - y / 100 + y / 400
  }

  /** The same count, year by year. */
  function DaysBeforeYearCounted(year: int): nat
    requires ValidYear(year)
    decreases year
  {
    if year == MIN_YEAR then 0
    else DaysBeforeYearCounted(year - 1) + (if IsLeapYear(year - 1) then 366 else 365)
  }

  lemma DaysInYear(year: int)
    requires ValidYear(year) && ValidYear(year + 1)
    ensures DaysBeforeYear(year + 1) == DaysBeforeYear(year) + (if IsLeapYear(year) then 366 else 365)
  {
    var y := year - 1;
    assert year / 4 == y / 4 + (if year % 4 == 0 then 1 else 0);
    assert year / 100 == y / 100 + (if year % 100 == 0 then 1 else 0);
    assert year / 400 == y / 400 + (if year % 400 == 0 then 1 else 0);
    assert year % 400 == 0 ==> year % 100 == 0 && year % 4 == 0;
    assert year % 100 == 0 ==> year % 4 == 0;
  }

  /** The closed form agrees with adding up the lengths of the years before. */
  lemma {:induction false} DaysBeforeYearIsCount(year: int)
    requires ValidYear(year)
    ensures DaysBeforeYear(year) == DaysBeforeYearCounted(year)
    decreases year
  {
    if year > MIN_YEAR {
      DaysBeforeYearIsCount(year - 1);
      DaysInYear(year - 1);
    }
  }

  /** January 1st, 00:00 of `year`, on the clock's microsecond scale. */
  function YearStart(year: int): nat
    requires ValidYear(year)
  {
    DaysBeforeYear(year) * SECONDS_PER_DAY * MICROS_PER_SECOND
  }

  /** `int(delta.total_seconds())`: whole seconds, truncated toward zero. */
  function WholeSeconds(micros: int): (s: int)
    ensures micros >= 0 ==> 0 <= s && s * MICROS_PER_SECOND <= micros < (s + 1) * MICROS_PER_SECOND
    ensures micros < 0 ==> s <= 0 && (s - 1) * MICROS_PER_SECOND < micros <= s * MICROS_PER_SECOND
  {
    if micros >= 0 then micros / MICROS_PER_SECOND else -((-micros) / MICROS_PER_SECOND)
  }

  /** Seconds from January 1st of `year` to the reading `now`. */
  function ElapsedSeconds(now: nat, year: int): int
    requires ValidYear(year)
  {
    WholeSeconds(now - YearStart(year))
  }

  /**
   * The UTC and the local timestamp, or the error `datetime(year, 1, 1)` raises for an
   * anchor year out of range (the UTC anchor is built first).
   */
  function Timestamps(settings: TimeSettings, clock: Clock): (r: Result<(int, int), Error>)
    ensures r.Ok? <==> ValidYear(settings.setTimeOffset) && ValidYear(LocalAnchorYear(settings))
    ensures !ValidYear(settings.setTimeOffset) ==> r == Err(YearOutOfRange(settings.setTimeOffset))
    ensures ValidYear(settings.setTimeOffset) && !ValidYear(LocalAnchorYear(settings)) ==>
      r == Err(YearOutOfRange(LocalAnchorYear(settings)))
    ensures r.Ok? ==> r.value == (ElapsedSeconds(clock.utcNow, settings.setTimeOffset),
                                  ElapsedSeconds(clock.localNow, LocalAnchorYear(settings)))
  {
    var utcYear, localYear := settings.setTimeOffset, LocalAnchorYear(settings);
    if !ValidYear(utcYear) then Err(YearOutOfRange(utcYear))
    else if !ValidYear(localYear) then Err(YearOutOfRange(localYear))
    else Ok((ElapsedSeconds(clock.utcNow, utcYear), ElapsedSeconds(clock.localNow, localYear)))
  }

  // ---------------------------------------------------------------- time-sync response

  /** The values `to_bytes(4, "big", signed=False)` accepts. */
  predicate InU32(v: int) {
    0 <= v < 0x1_0000_0000
  }

  /** `payload.extend(v.to_bytes(4, "big", signed=False))`. */
  method AppendU32(buf: seq<Byte>, v: int) returns (r: seq<Byte>)
    requires InU32(v)
    ensures |r| == |buf| + 4 && r[..|buf|] == buf
    ensures FromBigEndian(r[|buf|..]) == v
  {
    Pow256Four();
    var encoded := ToBigEndian(v, 4);
    r := buf + encoded;
    assert r[|buf|..] == encoded;
    FromToBigEndian(v, 4);
  }

  /** `resp` reports success and sends the 8-byte time payload for `utc` and `local`. */
  predicate CarriesTime(resp: Response, utc: int, local: int) {
    && resp.status == Success
    && resp.sent.commandId == TUYA_SET_TIME
    && !resp.sent.expectReply
    && resp.sent.payload.TimePayload?
    && |resp.sent.payload.bytes| == 8
    && FromBigEndian(resp.sent.payload.bytes[..4]) == utc
    && FromBigEndian(resp.sent.payload.bytes[4..]) == local
  }

  /**
   * `handle_set_time_request`: the payload is the UTC timestamp followed by the local
   * timestamp, each 4 bytes big-endian; a year or a timestamp out of range raises.
   */
  method HandleSetTimeRequest(settings: TimeSettings, clock: Clock) returns (r: Result<Response, Error>)
    ensures match Timestamps(settings, clock)
      case Err(e) => r == Err(e)
      case Ok(ts) =>
        if !InU32(ts.0) then r == Err(TimestampOverflow(ts.0))
        else if !InU32(ts.1) then r == Err(TimestampOverflow(ts.1))
        else r.Ok? && CarriesTime(r.value, ts.0, ts.1)
  {
    var timestamps := Timestamps(settings, clock);
    if timestamps.Err? {
      return Err(timestamps.error);
    }
    var (utcTimestamp, localTimestamp) := timestamps.value;
    if !InU32(utcTimestamp) {
      return Err(TimestampOverflow(utcTimestamp));
    }
    if !InU32(localTimestamp) {
      return Err(TimestampOverflow(localTimestamp));
    }
    var payload: seq<Byte> := [];
    payload := AppendU32(payload, utcTimestamp);
    payload := AppendU32(payload, localTimestamp);
    r := Ok(Response(Success, Command(TUYA_SET_TIME, TimePayload(payload), false)));
  }

  /** The payload's bytes are determined by the two timestamps it decodes to. */
  lemma CarriedTimeDeterminesBytes(a: Response, b: Response, utc: int, local: int)
    requires CarriesTime(a, utc, local) && CarriesTime(b, utc, local)
    ensures a == b
  {
    var x, y := a.sent.payload.bytes, b.sent.payload.bytes;
    ToFromBigEndian(x[..4]);
    ToFromBigEndian(y[..4]);
    ToFromBigEndian(x[4..]);
    ToFromBigEndian(y[4..]);
    assert x == x[..4] + x[4..] && y == y[..4] + y[4..];
  }

  /**
   * With no local offset (or a zero one) both timestamps count from the UTC anchor, so on a
   * host whose clock runs on UTC the two halves of the payload are the same bytes.
   */
  lemma LocalAnchorFallback(settings: TimeSettings, clock: Clock, resp: Response)
    requires settings.setTimeLocalOffset in {None, Some(0)}
    requires clock.utcNow == clock.localNow
    requires Timestamps(settings, clock).Ok?
    requires CarriesTime(resp, Timestamps(settings, clock).value.0, Timestamps(settings, clock).value.1)
    ensures Timestamps(settings, clock).value.0 == Timestamps(settings, clock).value.1
    ensures resp.sent.payload.bytes[..4] == resp.sent.payload.bytes[4..]
  {
    var bytes := resp.sent.payload.bytes;
    ToFromBigEndian(bytes[..4]);
    ToFromBigEndian(bytes[4..]);
  }

  /**
   * With both offsets set and a host clock on UTC, the two timestamps differ by exactly the
   * seconds between the two anchors (when the reading is after both anchors).
   */
  lemma AnchorDifference(settings: TimeSettings, clock: Clock)
    requires ValidYear(settings.setTimeOffset) && ValidYear(LocalAnchorYear(settings))
    requires clock.utcNow == clock.localNow
    requires clock.utcNow >= YearStart(settings.setTimeOffset)
    requires clock.utcNow >= YearStart(LocalAnchorYear(settings))
    ensures Timestamps(settings, clock).Ok?
    ensures var (utc, local) := Timestamps(settings, clock).value;
      utc - local
      == (DaysBeforeYear(LocalAnchorYear(settings)) - DaysBeforeYear(settings.setTimeOffset)) * SECONDS_PER_DAY
  {
  }

  // ---------------------------------------------------------------- connection status

  /**
   * `handle_mcu_connection_status`: echo the request's sequence number, answer "connected to
   * internet", and report success.
   */
  function HandleMcuConnectionStatus(request: ConnectionStatus): (r: Response)
    ensures r.status == Success
    ensures r.sent.commandId == TUYA_MCU_CONNECTION_STATUS && !r.sent.expectReply
    ensures r.sent.payload.ConnectionPayload? && r.sent.payload.connection.tsn == request.tsn
    ensures r.sent.payload.connection.status == [0x01]
  {
    Response(Success, Command(TUYA_MCU_CONNECTION_STATUS,
      ConnectionPayload(ConnectionStatus(request.tsn, [ConnectionStateByte(Connected)])), false))
  }

  /** The response depends on the request only through its sequence number, which it keeps. */
  lemma ConnectionStatusEchoesTsn(a: ConnectionStatus, b: ConnectionStatus)
    ensures HandleMcuConnectionStatus(a) == HandleMcuConnectionStatus(b) <==> a.tsn == b.tsn
  {
  }
}
