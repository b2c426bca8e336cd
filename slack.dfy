// The parts of the Slack webhook client that the handler uses: the message
// shapes it fills in and the Send call. The HTTP transport is not modelled;
// Send records each payload in a ghost history and reports an outcome that
// callers cannot predict.
module Slack {

  /** One labelled value shown inside an attachment. */
  datatype AttachmentField = AttachmentField(Title: string, Value: string, Short: bool)

  /** One attachment of a chat message. Ts is seconds since the Unix epoch. */
  datatype Attachment = Attachment(
    Color: string,
    Title: string,
    Text: string,
    Footer: string,
    FooterIcon: string,
    Ts: int,
    Fields: seq<AttachmentField>)

  /** One post to the webhook: a channel and the attachments to show there. */
  datatype Payload = Payload(Channel: string, Attachments: seq<Attachment>)

  /** What Send reports: the response on success, the error otherwise. */
  datatype SendResult = Delivered(response: string) | Failed(error: string)

  /** A payload handed to Send together with the outcome Send reported. */
  datatype Delivery = Delivery(Payload: Payload, Result: SendResult)

  /** The payloads of a history of deliveries, in send order. */
  function PayloadsOf(ds: seq<Delivery>): seq<Payload>
  {
    seq(|ds|, k requires 0 <= k < |ds| => ds[k].Payload)
  }

  /** The attachment lists carried by a sequence of payloads. */
  function AttachmentLists(ps: seq<Payload>): seq<seq<Attachment>>
  {
    seq(|ps|, k requires 0 <= k < |ps| => ps[k].Attachments)
  }

  class SlackClient {
    const Webhook: string
    /** Every payload ever handed to Send, with the outcome it got, oldest first. */
    ghost var History: seq<Delivery>

    constructor (webhook: string)
      ensures Webhook == webhook && History == []
    {
      Webhook := webhook;
      History := [];
    }

    /** Posts one payload. Whether the post succeeds is outside the model. */
    method Send(payload: Payload) returns (result: SendResult)
      modifies this`History
      ensures History == old(History) + [Delivery(payload, result)]
    {
      result :| true;
      History := History + [Delivery(payload, result)];
    }
  }
}
