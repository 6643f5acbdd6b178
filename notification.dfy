/**
 * `NotificationService` (bot/services/notification_service.py): sends a
 * price alert to a user through the chat platform. The text of the message
 * (and `format_price`) is not modelled; what is kept is which alert went to
 * whom, as the service's log of delivered alerts.
 */
module Notifications {
  import opened Wrappers
  import opened PyBuiltins
  import opened JsonValue

  /** The keyword arguments of `send_price_alert`. */
  datatype Alert = Alert(
    userId: int,
    productTitle: Json,
    currentPrice: real,
    targetPrice: Json,
    productUrl: string)

  class NotificationService {
    /** The alerts delivered so far, oldest first. */
    var sent: seq<Alert>

    constructor ()
      ensures sent == []
    {
      sent := [];
    }

    /** `send_price_alert`: `deliver(alert)` is the chat platform's answer to
        `send_message`; a refusal raises out of the call and nothing is sent. */
    method SendPriceAlert(alert: Alert, deliver: Alert -> bool) returns (error: Option<Exception>)
      modifies this
      ensures error == if deliver(alert) then None else Some(DeliveryError)
      ensures sent == if deliver(alert) then old(sent) + [alert] else old(sent)
    {
      if deliver(alert) {
        sent := sent + [alert];
        error := None;
      } else {
        error := Some(DeliveryError);
      }
    }
  }
}
