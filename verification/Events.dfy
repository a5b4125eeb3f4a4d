/** Normalized events, detections and their enumerations
    (backend/app/schemas/event.py, enums.py; backend/app/detection/base.py). */
module Events {
  import opened Text

  type EventId = nat

  datatype Severity = Info | Low | Medium | High | Critical {
    function Rank(): nat {
      match this
      case Info => 0
      case Low => 1
      case Medium => 2
      case High => 3
      case Critical => 4
    }
  }

  /** From informational to critical, each outranks the one before. */
  lemma {:induction false} RanksRise(a: Severity, b: Severity)
    ensures Info.Rank() < Low.Rank() < Medium.Rank() < High.Rank() < Critical.Rank()
    ensures a.Rank() == b.Rank() <==> a == b
  {
  }

  datatype EventType =
    | AuthSuccess | AuthFailure | Logout | PrivilegeEscalation
    | FirewallAllow | FirewallDeny | ConnectionAttempt | DnsQuery | NetworkFlow
    | HttpRequest | DbQuery | DbError | AppEvent | ScheduledJob | ConfigChange | Unknown

  datatype EventStatus = Success | Failure | Allowed | Denied | Blocked | Error | Information

  datatype AlertStatus = Open | Acknowledged | Investigating | Resolved | FalsePositive {
    predicate IsActive() {
      Open? || Acknowledged? || Investigating?
    }
  }

  /** The fields of an event that detection, storage and the minute counters read. */
  datatype SecurityEvent = SecurityEvent(
    eventId: EventId,
    timestamp: int,
    source: string,
    eventType: EventType,
    sourceIp: Option<string>,
    destinationIp: Option<string>,
    destinationPort: Option<nat>,
    username: Option<string>,
    status: Option<EventStatus>,
    bytesOut: nat)

  /** bool(value) on an optional string */
  predicate Truthy(s: Option<string>) {
    s.Some? && s.value != ""
  }

  function OrElse(s: Option<string>, default: string): string {
    if Truthy(s) then s.value else default
  }

  /** value.lower(), on ASCII letters */
  function Lower(s: string): (r: string)
    ensures |r| == |s|
    ensures forall i :: 0 <= i < |s| ==>
      r[i] == if 'A' <= s[i] <= 'Z' then ((s[i] as int) + 32) as char else s[i]
  {
    seq(|s|, i requires 0 <= i < |s| => if 'A' <= s[i] <= 'Z' then ((s[i] as int) + 32) as char else s[i])
  }

  /** A reference to a contributing event; `parts` are the values its summary text is made of. */
  datatype Evidence = Evidence(eventId: EventId, timestamp: int, eventType: EventType, parts: seq<string>)

  datatype StatusChange = StatusChange(from: AlertStatus, to: AlertStatus, actor: string)

  datatype MetaValue =
    | Number(n: int)
    | Flag(b: bool)
    | Word(s: Option<string>)
    | Words(list: seq<string>)
    | StatusOf(status: Option<EventStatus>)
    | History(changes: seq<StatusChange>)

  /** One firing of a detector; `description` lists the values its text is made of. */
  datatype Detection = Detection(
    ruleId: string,
    title: string,
    description: seq<string>,
    severity: Severity,
    confidence: real,
    correlationKey: string,
    sourceIp: Option<string>,
    affectedHost: Option<string>,
    evidence: seq<Evidence>,
    involvedUsers: seq<string>,
    involvedHosts: seq<string>,
    eventCountHint: int,
    anomalyScore: Option<real>,
    metadata: map<string, MetaValue>,
    triggeredAt: int)
}
