/**
 The components together: what the request-reply client and the management API's answers mean for an alert, and
 which map entry a telemetry message and a decommission message are about.
 */
module Composition {
  import opened Common
  import opened Heartbeat
  import RR = RequestReply
  import T = Telemetry

  /**
   An expired Online entry is alerted exactly if the publish succeeds and no attempt of the lifecycle query brought
   a reply that decodes, is about the gateway and says paused. Every failure of the query lets the alert through.
   */
  method AlertCandidate<Body(!new)>(e: Entry, now: int, timeoutMs: int, publishes: bool, maxRetries: int,
                                    backoff: seq<int>, net: RR.Network<Body>,
                                    decode: Body -> Option<RR.LifecycleResponse>)
    returns (alerted: bool, requests: nat)
    requires backoff != []
    requires e.knownStatus == Online && e.lastSeen + Wrap64(timeoutMs * 1_000_000) <= now
    ensures alerted <==> publishes && !exists k: nat ::
              && k <= maxRetries
              && (forall j: nat :: j < k ==> net.reply(j).None? && net.slept(j))
              && net.reply(k).Some? && decode(net.reply(k).value).Some?
              && var reply := decode(net.reply(k).value).value;
                 && reply.gatewayID != "" && (e.gatewayID == "" || reply.gatewayID == e.gatewayID)
                 && reply.state == "paused"
    ensures requests <= Max(maxRetries + 1, 0)
  {
    var state;
    state, requests := RR.GetGatewayLifecycle(maxRetries, backoff, net, decode, e.gatewayID);
    alerted := Alerts(e, now, Answer(timeoutMs, state, publishes));
    forall k: nat | k <= maxRetries && net.reply(k).Some? && decode(net.reply(k).value).Some?
      ensures RR.Brings(net, decode, maxRetries, e.gatewayID, k, "paused") <==>
              && (forall j: nat :: j < k ==> net.reply(j).None? && net.slept(j))
              && var reply := decode(net.reply(k).value).value;
                 && reply.gatewayID != "" && (e.gatewayID == "" || reply.gatewayID == e.gatewayID)
                 && reply.state == "paused" {}
    if k: nat :| RR.Brings(net, decode, maxRetries, e.gatewayID, k, "paused") {
      assert net.reply(k).Some?;
    }
  }

  /** The key of a telemetry message: the tenant of its subject and the gateway its envelope names. */
  function TelemetryKey(raw: T.Raw): Option<Key> {
    if T.Process(raw).Good? then Some(Key(T.Process(raw).row.tenantID, T.Process(raw).row.gatewayID)) else None
  }

  /** The key of a decommission message: tenant and gateway of its subject. */
  function DecommissionKey(subject: string): Option<Key> {
    var parts := Split(subject, '.');
    if |parts| != 4 then None else Some(Key(parts[2], parts[3]))
  }

  /** A subject of four tokens, the third and fourth naming tenant and gateway. */
  function Subject(domain: string, action: string, tenantID: string, gatewayID: string): string {
    domain + "." + (action + "." + (tenantID + "." + gatewayID))
  }

  lemma FourTokens(a: string, b: string, c: string, d: string)
    requires '.' !in a && '.' !in b && '.' !in c && '.' !in d
    ensures Split(Subject(a, b, c, d), '.') == [a, b, c, d]
  {
    SplitFirst(a, b + "." + (c + "." + d), '.');
    SplitFirst(b, c + "." + d, '.');
    SplitFirst(c, d, '.');
    SplitWhole(d, '.');
  }

  /**
   A decommission of gateway `g` of tenant `t` is about the entry that telemetry on the gateway's own subject
   feeds exactly if the envelope names the gateway of the subject.
   */
  lemma DecommissionMeetsTelemetry(t: string, g: string, e: T.Envelope)
    requires '.' !in t && '.' !in g
    ensures var telemetry := T.Raw(Subject("telemetry", "data", t, g), Some(e), true);
            TelemetryKey(telemetry) == DecommissionKey(Subject("gateway", "decommissioned", t, g)) <==>
            e.gatewayID == g
  {
    hide Split, Subject;
    FourTokens("telemetry", "data", t, g);
    FourTokens("gateway", "decommissioned", t, g);
  }
}
