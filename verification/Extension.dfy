/** The extension side of the observer protocol, observer/extension-adapter.ts: attempts, sequences, and reconnection. */
module Extension {
  import opened Contracts
  import opened Registry

  const MAX_RECONNECT_ATTEMPTS: nat := 32
  const DEFAULT_RECONNECT_ATTEMPTS: nat := 8
  const MAX_RECONNECT_DELAY_MS: nat := 60000
  const DEFAULT_INITIAL_DELAY_MS: nat := 250
  const DEFAULT_MAX_DELAY_MS: nat := 5000

  function Min(a: nat, b: nat): nat {
    if a < b then a else b
  }

  /** An option that is absent, not an integer or out of range falls back; None stands for all three. */
  function NormalizedLimit(value: Option<nat>): nat {
    match value
    case None => DEFAULT_RECONNECT_ATTEMPTS
    case Some(v) => Min(v, MAX_RECONNECT_ATTEMPTS)
  }

  function NormalizedDelay(value: Option<nat>, fallback: nat): nat {
    match value
    case None => fallback
    case Some(v) => if v > 0 then Min(v, MAX_RECONNECT_DELAY_MS) else fallback
  }

  datatype Config = Config(maxAttempts: nat, initialDelayMs: nat, maxDelayMs: nat)

  function NormalizedConfig(limit: Option<nat>, initial: Option<nat>, largest: Option<nat>): Config {
    var first := NormalizedDelay(initial, DEFAULT_INITIAL_DELAY_MS);
    var last := NormalizedDelay(largest, DEFAULT_MAX_DELAY_MS);
    Config(NormalizedLimit(limit), first, if first > last then first else last)
  }

  predicate ValidConfig(c: Config) {
    c.maxAttempts <= MAX_RECONNECT_ATTEMPTS && 0 < c.initialDelayMs <= c.maxDelayMs <= MAX_RECONNECT_DELAY_MS
  }

  lemma NormalizedConfigValid(limit: Option<nat>, initial: Option<nat>, largest: Option<nat>)
    ensures ValidConfig(NormalizedConfig(limit, initial, largest))
  {
  }

  function Power2(n: nat): (p: nat)
    ensures p >= 1
  {
    if n == 0 then 1 else 2 * Power2(n - 1)
  }

  /** The delay before the `attempt`-th consecutive retry. */
  function DelayMs(c: Config, attempt: nat): nat
    requires attempt >= 1
  {
    Min(c.maxDelayMs, c.initialDelayMs * Power2(Min(attempt - 1, 30)))
  }

  lemma {:induction false} PowersGrow(m: nat, n: nat)
    requires m <= n
    ensures Power2(m) <= Power2(n)
    decreases n
  {
    if m < n {
      PowersGrow(m, n - 1);
    }
  }

  /** Consecutive delays start at the initial one, never fall, and are capped. */
  lemma DelaysGrow(c: Config, m: nat, n: nat)
    requires ValidConfig(c) && 1 <= m <= n
    ensures c.initialDelayMs == DelayMs(c, 1) <= DelayMs(c, m) <= DelayMs(c, n) <= c.maxDelayMs
  {
    var low, high := Min(m - 1, 30), Min(n - 1, 30);
    PowersGrow(low, high);
    PowersGrow(0, low);
    TimesGrows(c.initialDelayMs, Power2(0), Power2(low));
    TimesGrows(c.initialDelayMs, Power2(low), Power2(high));
  }

  lemma TimesGrows(a: nat, x: nat, y: nat)
    requires x <= y
    ensures a * x <= a * y
  {
  }

  function Pow16(n: nat): nat {
    if n == 0 then 1 else 16 * Pow16(n - 1)
  }

  const DIGITS: string := "0123456789abcdef"

  /** `n` in hexadecimal, padded to `width` digits. */
  function Hex(n: nat, width: nat): (s: string)
    ensures |s| == width
  {
    if width == 0 then "" else Hex(n / 16, width - 1) + [DIGITS[n % 16]]
  }

  lemma DigitsDiffer(a: nat, b: nat)
    requires a < 16 && b < 16 && DIGITS[a] == DIGITS[b]
    ensures a == b
  {
  }

  /** Padded counters of one width are different texts for different numbers. */
  lemma {:induction false} HexInjective(a: nat, b: nat, width: nat)
    requires a < Pow16(width) && b < Pow16(width) && Hex(a, width) == Hex(b, width)
    ensures a == b
    decreases width
  {
    if width > 0 {
      assert Hex(a, width)[..width - 1] == Hex(a / 16, width - 1) && Hex(b, width)[..width - 1] == Hex(b / 16, width - 1);
      assert Hex(a, width)[width - 1] == Hex(b, width)[width - 1];
      DigitsDiffer(a % 16, b % 16);
      HexInjective(a / 16, b / 16, width - 1);
    }
  }

  function EventId(counter: nat): string {
    "event-" + Hex(counter, 32)
  }

  lemma CountersFit()
    ensures MAX_SAFE_INTEGER < Pow16(32)
  {
    assert Pow16(14) == 0x100_0000_0000_0000;
    PowersOf16Grow(14, 32);
  }

  lemma {:induction false} PowersOf16Grow(m: nat, n: nat)
    requires m <= n
    ensures 1 <= Pow16(m) <= Pow16(n)
    decreases n
  {
    if m < n {
      PowersOf16Grow(m, n - 1);
    } else if m > 0 {
      PowersOf16Grow(0, m - 1);
    }
  }

  lemma EventIdsDiffer(a: nat, b: nat)
    requires a <= MAX_SAFE_INTEGER && b <= MAX_SAFE_INTEGER && EventId(a) == EventId(b)
    ensures a == b
  {
    CountersFit();
    assert EventId(a)[6..] == Hex(a, 32) && EventId(b)[6..] == Hex(b, 32);
    HexInjective(a, b, 32);
  }

  datatype Frame =
    | RegisterFrame(registration: RegisterBody)
    | HeartbeatFrame(heartbeat: HeartbeatBody)
    | LifecycleFrame(lifecycle: LifecycleBody)
    | CloseFrame(close: CloseBody)

  /** What the gateway sends back; only registrations are answered when they succeed. */
  datatype Answer =
    | RegisteredAnswer(connectionId: string, challenge: string, attempt: nat, sequence: nat)
    | RejectedAnswer(error: Error)

  datatype Credentials = Credentials(connectionId: string, challenge: string)

  /** The connection in use; `first` is the sequence its registration carried. */
  datatype Active = Active(connection: Connection, attempt: nat, first: nat, sequence: nat, registered: Option<Credentials>)

  datatype Adapter = Adapter(
    config: Config, key: Key,
    attempt: nat, message: nat, sequence: nat,
    connecting: Option<(nat, nat)>, active: Option<Active>,
    retries: nat, scheduled: bool, permanent: bool, ended: bool)

  function Schedule(e: Adapter): Adapter {
    if e.ended || e.active.Some? || e.permanent || e.scheduled || e.retries >= e.config.maxAttempts then e
    else e.(retries := e.retries + 1, scheduled := true)
  }

  /** The synchronous start of a connection attempt: it uses up an attempt and a sequence before it waits. */
  function Connect(e: Adapter): Adapter {
    if e.ended || e.active.Some? || e.connecting.Some? then e
    else if e.attempt >= MAX_SAFE_INTEGER then Schedule(e)
    else if e.sequence >= MAX_SAFE_INTEGER then Schedule(e.(attempt := e.attempt + 1))
    else e.(attempt := e.attempt + 1, sequence := e.sequence + 1, connecting := Some((e.attempt + 1, e.sequence + 1)))
  }

  /** The retry timer fires. */
  function Retry(e: Adapter): Adapter {
    if !e.scheduled then e else Connect(e.(scheduled := false))
  }

  /** The connector fails, or yields a connection to a session that has ended. */
  function ConnectFails(e: Adapter): Adapter {
    if e.connecting == None then e else Schedule(e.(connecting := None))
  }

  /** The connection opens and the registration is sent on it. */
  function Bind(e: Adapter, connection: Connection, status: Status): (Adapter, Option<Frame>) {
    if e.connecting == None then (e, None)
    else if e.ended then (e.(connecting := None), None)
    else
      var (attempt, sequence) := e.connecting.value;
      (e.(connecting := None, message := e.message + 1, active := Some(Active(connection, attempt, sequence, sequence, None))),
       Some(RegisterFrame(RegisterBody(e.key, attempt, sequence, status))))
  }

  /** The connection is retired and, unless the session has ended or is incompatible, a retry is scheduled. */
  function FailOpen(e: Adapter): Adapter {
    if e.active == None then e else Schedule(e.(active := None))
  }

  function Allocate(e: Adapter): Adapter
    requires e.active.Some?
  {
    e.(sequence := e.sequence + 1, active := Some(e.active.value.(sequence := e.sequence + 1)))
  }

  predicate MaySend(e: Adapter) {
    !e.ended && e.active.Some? && e.active.value.registered.Some?
  }

  function SendHeartbeat(e: Adapter, status: Status): (Adapter, Option<Frame>) {
    if !MaySend(e) || e.sequence >= MAX_SAFE_INTEGER || e.message >= MAX_SAFE_INTEGER then (e, None)
    else
      var c := e.active.value.registered.value;
      var next := Allocate(e);
      (next.(message := e.message + 1), Some(HeartbeatFrame(HeartbeatBody(c.connectionId, c.challenge, next.sequence, status))))
  }

  /** A lifecycle frame fails its connection when the counters have run out; it uses two message numbers: its event identity, then its frame identity. */
  function SendLifecycle(e: Adapter, status: Status): (Adapter, Option<Frame>) {
    if !MaySend(e) then (e, None)
    else if e.sequence >= MAX_SAFE_INTEGER || e.message + 1 >= MAX_SAFE_INTEGER then (FailOpen(e), None)
    else
      var c := e.active.value.registered.value;
      var next := Allocate(e);
      (next.(message := e.message + 2),
       Some(LifecycleFrame(LifecycleBody(c.connectionId, c.challenge, EventId(e.message + 1), next.sequence, status))))
  }

  /** The session ends; a registered connection says so first. */
  function Shutdown(e: Adapter, reason: string): (Adapter, Option<Frame>) {
    var over := e.(ended := true, scheduled := false, active := None);
    if !MaySend(e) || e.sequence >= MAX_SAFE_INTEGER || e.message >= MAX_SAFE_INTEGER then (over, None)
    else
      var c := e.active.value.registered.value;
      (over.(sequence := e.sequence + 1, message := e.message + 1),
       Some(CloseFrame(CloseBody(c.connectionId, c.challenge, e.sequence + 1, reason))))
  }

  /** Whether a registration reply is the reply to the current registration. */
  predicate Matches(a: Active, answer: Answer)
    requires answer.RegisteredAnswer?
  {
    answer.attempt == a.attempt && answer.sequence == a.sequence
  }

  /** An answer on `connection`; answers on other connections than the current one are not looked at. */
  function Receive(e: Adapter, connection: Connection, answer: Answer, incompatible: bool): Adapter {
    if e.ended || e.active == None || e.active.value.connection != connection then e
    else match answer
      case RegisteredAnswer(id, challenge, _, _) =>
        if e.active.value.registered.Some? then e
        else if !Matches(e.active.value, answer) then FailOpen(e)
        else e.(active := Some(e.active.value.(registered := Some(Credentials(id, challenge)))), retries := 0)
      case RejectedAnswer(_) => FailOpen(if incompatible then e.(permanent := true) else e)
  }

  function SequenceOfFrame(f: Frame): nat {
    match f
    case RegisterFrame(b) => b.sequence
    case HeartbeatFrame(b) => b.sequence
    case LifecycleFrame(b) => b.sequence
    case CloseFrame(b) => b.sequence
  }

  class ObserverExtension {
    const config: Config
    const key: Key
    var registrationAttempt: nat
    var messageCounter: nat
    var sourceSequence: nat
    var connecting: Option<(nat, nat)>
    var active: Option<Active>
    var reconnectAttempts: nat
    var scheduled: bool
    var permanentIncompatibility: bool
    var ended: bool
    /** Delays handed to the timer, oldest first. */
    var delays: seq<nat>

    function Contents(): Adapter
      reads this
    {
      Adapter(config, key, registrationAttempt, messageCounter, sourceSequence, connecting, active,
              reconnectAttempts, scheduled, permanentIncompatibility, ended)
    }

    constructor (config: Config, key: Key, registrationAttempt: nat, messageCounter: nat)
      ensures Contents() == Adapter(config, key, registrationAttempt, messageCounter, 0, None, None, 0, false, false, false)
      ensures delays == []
    {
      this.config, this.key := config, key;
      this.registrationAttempt, this.messageCounter := registrationAttempt, messageCounter;
      sourceSequence, connecting, active := 0, None, None;
      reconnectAttempts, scheduled, permanentIncompatibility, ended, delays := 0, false, false, false, [];
    }

    method ScheduleReconnect()
      modifies this
      ensures Contents() == Schedule(old(Contents()))
      ensures delays == old(delays) + if reconnectAttempts == old(reconnectAttempts) then [] else [DelayMs(config, reconnectAttempts)]
    {
      if ended || active.Some? || permanentIncompatibility || scheduled || reconnectAttempts >= config.maxAttempts {
        return;
      }
      reconnectAttempts := reconnectAttempts + 1;
      delays := delays + [DelayMs(config, reconnectAttempts)];
      scheduled := true;
    }

    method ConnectSession()
      modifies this
      ensures Contents() == Connect(old(Contents()))
    {
      if ended || active.Some? || connecting.Some? {
        return;
      }
      if registrationAttempt >= MAX_SAFE_INTEGER {
        ScheduleReconnect();
        return;
      }
      registrationAttempt := registrationAttempt + 1;
      if sourceSequence >= MAX_SAFE_INTEGER {
        ScheduleReconnect();
        return;
      }
      sourceSequence := sourceSequence + 1;
      connecting := Some((registrationAttempt, sourceSequence));
    }

    method FireRetry()
      modifies this
      ensures Contents() == Retry(old(Contents()))
    {
      if scheduled {
        scheduled := false;
        ConnectSession();
      }
    }

    method ConnectFailed()
      modifies this
      ensures Contents() == ConnectFails(old(Contents()))
    {
      if connecting.Some? {
        connecting := None;
        ScheduleReconnect();
      }
    }

    method Connected(connection: Connection, status: Status) returns (sent: Option<Frame>)
      modifies this
      ensures (Contents(), sent) == Bind(old(Contents()), connection, status)
    {
      if connecting == None { return None; }
      var attempt, sequence := connecting.value.0, connecting.value.1;
      connecting := None;
      if ended { return None; }
      active := Some(Active(connection, attempt, sequence, sequence, None));
      messageCounter := messageCounter + 1;
      sent := Some(RegisterFrame(RegisterBody(key, attempt, sequence, status)));
    }

    method Fail()
      modifies this
      ensures Contents() == FailOpen(old(Contents()))
    {
      if active.Some? {
        active := None;
        ScheduleReconnect();
      }
    }

    method NextSourceSequence() returns (sequence: nat)
      requires active.Some?
      modifies this
      ensures Contents() == Allocate(old(Contents())) && sequence == sourceSequence
      ensures delays == old(delays)
    {
      sourceSequence := sourceSequence + 1;
      active := Some(active.value.(sequence := sourceSequence));
      sequence := sourceSequence;
    }

    method Heartbeat(status: Status) returns (sent: Option<Frame>)
      modifies this
      ensures (Contents(), sent) == SendHeartbeat(old(Contents()), status)
    {
      if !MaySend(Contents()) || sourceSequence >= MAX_SAFE_INTEGER || messageCounter >= MAX_SAFE_INTEGER { return None; }
      var c := active.value.registered.value;
      var sequence := NextSourceSequence();
      messageCounter := messageCounter + 1;
      sent := Some(HeartbeatFrame(HeartbeatBody(c.connectionId, c.challenge, sequence, status)));
    }

    method Lifecycle(status: Status) returns (sent: Option<Frame>)
      modifies this
      ensures (Contents(), sent) == SendLifecycle(old(Contents()), status)
    {
      if !MaySend(Contents()) { return None; }
      if sourceSequence >= MAX_SAFE_INTEGER || messageCounter + 1 >= MAX_SAFE_INTEGER {
        Fail();
        return None;
      }
      var c := active.value.registered.value;
      messageCounter := messageCounter + 1;
      var eventId := EventId(messageCounter);
      var sequence := NextSourceSequence();
      messageCounter := messageCounter + 1;
      sent := Some(LifecycleFrame(LifecycleBody(c.connectionId, c.challenge, eventId, sequence, status)));
    }

    method EndSession(reason: string) returns (sent: Option<Frame>)
      modifies this
      ensures (Contents(), sent) == Shutdown(old(Contents()), reason)
    {
      sent := None;
      if MaySend(Contents()) && sourceSequence < MAX_SAFE_INTEGER && messageCounter < MAX_SAFE_INTEGER {
        var c := active.value.registered.value;
        var sequence := NextSourceSequence();
        messageCounter := messageCounter + 1;
        sent := Some(CloseFrame(CloseBody(c.connectionId, c.challenge, sequence, reason)));
      }
      ended, scheduled, active := true, false, None;
    }

    method HandleFrame(connection: Connection, answer: Answer, incompatible: bool)
      modifies this
      ensures Contents() == Receive(old(Contents()), connection, answer, incompatible)
    {
      if ended || active == None || active.value.connection != connection { return; }
      match answer
      case RegisteredAnswer(id, challenge, attempt, sequence) =>
        if active.value.registered.Some? { return; }
        if attempt != active.value.attempt || sequence != active.value.sequence {
          Fail();
        } else {
          active := Some(active.value.(registered := Some(Credentials(id, challenge))));
          reconnectAttempts := 0;
        }
      case RejectedAnswer(_) =>
        if incompatible {
          permanentIncompatibility := true;
        }
        Fail();
    }
  }
}
