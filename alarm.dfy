// Turning CloudWatch alarm notifications into Slack attachments: the event
// records the handler receives, the colour chosen from the alarm's new
// state, and the one attachment built per record.
module Alarm {
  import opened Render
  import opened Slack

  /** The trigger part of an alarm notification. Threshold is a float32 in
      the notification; it is kept here as the text "%v" prints for it. */
  datatype AlarmTrigger = AlarmTrigger(
    Period: int,
    EvaluationPeriods: int,
    ComparisonOperator: string,
    Threshold: string)

  /** The JSON document carried in an SNS message body, once decoded. */
  datatype AlarmEvent = AlarmEvent(
    AlarmName: string,
    AlarmDescription: string,
    AWSAccountID: string,
    NewStateValue: string,
    NewStateReason: string,
    StateChangeTime: string,
    Region: string,
    OldStateValue: string,
    Trigger: AlarmTrigger)

  /** One SNS record: its subject line and its message, already decoded. A
      message that does not decode is ZERO_EVENT. */
  datatype SnsRecord = SnsRecord(Subject: string, Message: AlarmEvent)

  /** The event with every field at its zero value. */
  const ZERO_EVENT := AlarmEvent("", "", "", "", "", "", "", "", AlarmTrigger(0, 0, "", "0"))

  const COLOR_DANGER := "danger"
  const COLOR_WARNING := "warning"
  const COLOR_GOOD := "good"

  const FOOTER_ICON := "https://d1d05r7k0qlw4w.cloudfront.net/dist-cbe91c5a8477701757ff6752aae4c6f892018972/img/favicon.ico"

  /** The titles of the six fields of every attachment, in display order. */
  const FIELD_TITLES := ["AccountID", "Region", "Period", "Threshold", "Evaluated Periods", "Comparison Operator"]

  /** The colour of an alarm's attachment, chosen by exact match on its new
      state; every state other than the two named ones is "good". */
  function Color(state: string): (color: string)
    ensures color == COLOR_DANGER <==> state == "ALARM"
    ensures color == COLOR_WARNING <==> state == "INSUFFICIENT_DATA"
    ensures color == COLOR_GOOD <==> state != "ALARM" && state != "INSUFFICIENT_DATA"
  {
    if state == "ALARM" then COLOR_DANGER
    else if state == "INSUFFICIENT_DATA" then COLOR_WARNING
    else COLOR_GOOD
  }

  /** What an attachment shows about a record: the colour of its new state,
      its subject as title, the state reason as text, and six short fields in
      the fixed order whose values are the account, the region, the trigger's
      figures (numbers read back to the trigger's own values) and the
      comparison operator. */
  ghost predicate Shows(a: Attachment, rec: SnsRecord) {
    var alarm := rec.Message;
    && a.Color == Color(alarm.NewStateValue)
    && a.Title == rec.Subject
    && a.Text == alarm.NewStateReason
    && a.FooterIcon == FOOTER_ICON
    && |a.Fields| == |FIELD_TITLES|
    && (forall k :: 0 <= k < |a.Fields| ==> a.Fields[k].Title == FIELD_TITLES[k] && a.Fields[k].Short)
    && a.Fields[0].Value == alarm.AWSAccountID
    && a.Fields[1].Value == alarm.Region
    && ParseInt(a.Fields[2].Value) == Some(alarm.Trigger.Period)
    && a.Fields[3].Value == alarm.Trigger.Threshold
    && ParseInt(a.Fields[4].Value) == Some(alarm.Trigger.EvaluationPeriods)
    && a.Fields[5].Value == alarm.Trigger.ComparisonOperator
  }

  /** The attachment for one record, with the function's name as footer and
      the clock reading ts as its timestamp. */
  function BuildAttachment(rec: SnsRecord, functionName: string, ts: int): (a: Attachment)
    ensures Shows(a, rec)
    ensures a.Footer == functionName && a.Ts == ts
  {
    var alarm := rec.Message;
    var trigger := alarm.Trigger;
    ParseFormatInt(trigger.Period);
    ParseFormatInt(trigger.EvaluationPeriods);
    Attachment(
      Color(alarm.NewStateValue),
      rec.Subject,
      alarm.NewStateReason,
      functionName,
      FOOTER_ICON,
      ts,
      [ AttachmentField("AccountID", alarm.AWSAccountID, true),
        AttachmentField("Region", alarm.Region, true),
        AttachmentField("Period", FormatInt(trigger.Period), true),
        AttachmentField("Threshold", trigger.Threshold, true),
        AttachmentField("Evaluated Periods", FormatInt(trigger.EvaluationPeriods), true),
        AttachmentField("Comparison Operator", trigger.ComparisonOperator, true) ])
  }

  /** atts holds one attachment per record, in record order, each built
      from its record with the given footer and some clock reading. */
  ghost predicate BuiltFrom(atts: seq<Attachment>, records: seq<SnsRecord>, functionName: string) {
    && |atts| == |records|
    && forall i :: 0 <= i < |records| ==> atts[i] == BuildAttachment(records[i], functionName, atts[i].Ts)
  }

  /** A record whose message did not decode still gets an attachment: colour
      "good", empty text, and the zero values in its fields. */
  lemma UndecodableRecord(subject: string, functionName: string, ts: int)
    ensures var a := BuildAttachment(SnsRecord(subject, ZERO_EVENT), functionName, ts);
      && a.Color == COLOR_GOOD && a.Title == subject && a.Text == ""
      && seq(6, k requires 0 <= k < 6 => a.Fields[k].Value) == ["", "", "0", "0", "0", ""]
  {
    var a := BuildAttachment(SnsRecord(subject, ZERO_EVENT), functionName, ts);
    assert FormatInt(0) == "0";
  }

  /** The current time in whole seconds since the Unix epoch. The clock is
      outside the model: callers learn nothing about the value. */
  method UnixNow() returns (seconds: int) {
    seconds :| true;
  }

  /** One attachment per record, in record order; each is the record's
      attachment at the clock reading taken when it was built. */
  method BuildAttachments(records: seq<SnsRecord>, functionName: string) returns (atts: seq<Attachment>)
    ensures BuiltFrom(atts, records, functionName)
    ensures forall i :: 0 <= i < |atts| ==> Shows(atts[i], records[i]) && atts[i].Footer == functionName
  {
    atts := [];
    for i := 0 to |records|
      invariant BuiltFrom(atts, records[..i], functionName)
    {
      var ts := UnixNow();
      atts := atts + [BuildAttachment(records[i], functionName, ts)];
    }
    assert records[..|records|] == records;
  }
}
