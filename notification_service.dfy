/** The notification ledger: every send attempt is logged exactly once,
    whether or not the email provider accepted it. The provider call itself
    is not modelled; its outcome is a parameter. */
module Notifications {
  import opened Common
  import opened Seqs

  datatype SendNotificationInput = SendNotificationInput(
    recipientEmail: string,
    subject: string,
    message: string,
    triggerEvent: string,
    orderId: Option<string>)

  /** What the provider call did: returned a boolean, or threw. */
  datatype Delivery = Returned(accepted: bool) | Threw

  datatype NotificationLog = NotificationLog(
    id: string,
    recipientEmail: string,
    triggerEvent: string,
    status: NotificationStatus,
    providerResponseId: Option<string>,
    orderId: Option<string>)

  /** At most this many logs are listed per recipient. */
  const PageSize: nat := 20

  function LogsOf(logs: seq<NotificationLog>, email: string): seq<NotificationLog>
  {
    Filter(logs, (l: NotificationLog) => l.recipientEmail == email)
  }

  /** `getLogsByEmail`: the recipient's logs, newest first, at most 20; when
      there are more, the 20 newest. */
  function GetLogsByEmail(logs: seq<NotificationLog>, email: string): (r: seq<NotificationLog>)
    ensures |r| == if |LogsOf(logs, email)| < PageSize then |LogsOf(logs, email)| else PageSize
    ensures forall k :: 0 <= k < |r| ==> r[k] in logs && r[k].recipientEmail == email
    ensures forall a, b :: 0 <= a < b < |r| ==> Precedes(logs, r[b], r[a])
    ensures |LogsOf(logs, email)| <= PageSize ==>
      forall j :: 0 <= j < |logs| && logs[j].recipientEmail == email ==> logs[j] in r
    ensures forall k :: 0 <= k < |r| ==> r[k] == LogsOf(logs, email)[|LogsOf(logs, email)| - 1 - k]
  {
    var newest := Reverse(LogsOf(logs, email));
    ReversedFilter(logs, (l: NotificationLog) => l.recipientEmail == email);
    Take(newest, PageSize)
  }

  /** The log just written heads its recipient's list. */
  lemma NewLogListedFirst(logs: seq<NotificationLog>, log: NotificationLog)
    ensures var r := GetLogsByEmail(logs + [log], log.recipientEmail);
      |r| > 0 && r[0] == log
  {
    FilterAppend(logs, log, (l: NotificationLog) => l.recipientEmail == log.recipientEmail);
  }

  /** Another recipient's list is not affected by a new log. */
  lemma OtherRecipientsUnaffected(logs: seq<NotificationLog>, log: NotificationLog, email: string)
    requires email != log.recipientEmail
    ensures GetLogsByEmail(logs + [log], email) == GetLogsByEmail(logs, email)
  {
    FilterAppend(logs, log, (l: NotificationLog) => l.recipientEmail == email);
    assert LogsOf(logs + [log], email) == LogsOf(logs, email);
  }

  /** The store of notification logs. */
  class NotificationService {
    var logs: seq<NotificationLog>

    constructor ()
      ensures logs == []
    {
      logs := [];
    }

    /** `sendAndLog`: one log per call. A throw from the provider is caught
        and logged as FAILED; anything else, a `false` answer included, is
        logged as SENT. No provider response id is ever recorded. `freshId`
        is the id the store assigns. */
    method SendAndLog(input: SendNotificationInput, delivery: Delivery, freshId: string) returns (log: NotificationLog)
      modifies this
      ensures logs == old(logs) + [log]
      ensures log.id == freshId && log.recipientEmail == input.recipientEmail && log.triggerEvent == input.triggerEvent
      ensures log.status == Failed <==> delivery.Threw?
      ensures log.status == Sent <==> !delivery.Threw?
      ensures log.providerResponseId.None? && log.orderId == input.orderId
    {
      var status := Sent;
      var providerId: Option<string> := None;
      if delivery.Threw? {
        status := Failed;
      }
      log := NotificationLog(freshId, input.recipientEmail, input.triggerEvent, status, providerId, input.orderId);
      logs := logs + [log];
    }
  }
}
