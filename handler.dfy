// The Lambda handler: build one attachment per SNS record, split the
// attachments into posts of at most chunkSize attachments and post each one
// to the monitor channel, logging every outcome and never stopping early.
module Handler {
  import opened Render
  import opened Slack
  import opened Alarm
  import opened Chunking

  /** The most attachments Slack accepts in one post. */
  const SLACK_ATTACHMENTS_CHUNK_SIZE := 100

  const NO_SLACK_SENT := "No Slack Sent"

  /** A line written to one of the three loggers. */
  datatype LogLine = Info(text: string) | Warning(text: string) | Error(text: string)

  /** The line logged for one send outcome: the error at error level, the
      response at info level. */
  function Report(r: SendResult): (line: LogLine)
    ensures line.Error? <==> r.Failed?
    ensures line.Info? <==> r.Delivered?
    ensures r.Failed? ==> line.text == r.error
    ensures r.Delivered? ==> line.text == r.response
  {
    match r
    case Failed(e) => Error(e)
    case Delivered(resp) => Info(resp)
  }

  /** The lines logged for a run of deliveries, one each, in order. */
  function Reports(ds: seq<Delivery>): seq<LogLine>
  {
    seq(|ds|, k requires 0 <= k < |ds| => Report(ds[k].Result))
  }

  /** One payload per piece, each addressed to channel, in piece order. */
  function Addressed(channel: string, pieces: seq<seq<Attachment>>): seq<Payload>
  {
    seq(|pieces|, k requires 0 <= k < |pieces| => Payload(channel, pieces[k]))
  }

  /** The payloads a list of attachments is posted as: its pieces of at most
      c attachments, each addressed to channel. Every payload goes to channel
      with between 1 and c attachments, there are ceil(|atts| / c) of them,
      and their attachments, concatenated, are atts again. */
  lemma PostedPayloads(channel: string, atts: seq<Attachment>, c: nat)
    requires c > 0
    ensures var ps := Addressed(channel, Chunks(atts, c));
      && |ps| == (|atts| + c - 1) / c
      && (forall k :: 0 <= k < |ps| ==> ps[k].Channel == channel && 0 < |ps[k].Attachments| <= c)
      && Flatten(AttachmentLists(ps)) == atts
  {
    var pieces := Chunks(atts, c);
    var ps := Addressed(channel, pieces);
    ChunkCount(atts, c);
    forall k | 0 <= k < |ps|
      ensures 0 < |ps[k].Attachments| <= c
    {
      ChunkSizes(atts, c, k);
    }
    assert AttachmentLists(ps) == pieces;
    FlattenChunks(atts, c);
  }

  lemma PayloadsOfSnoc(ds: seq<Delivery>, d: Delivery)
    ensures PayloadsOf(ds + [d]) == PayloadsOf(ds) + [d.Payload]
  {
  }

  lemma ReportsSnoc(ds: seq<Delivery>, d: Delivery)
    ensures Reports(ds + [d]) == Reports(ds) + [Report(d.Result)]
  {
  }

  lemma AddressedSnoc(channel: string, pieces: seq<seq<Attachment>>, piece: seq<Attachment>)
    ensures Addressed(channel, pieces + [piece]) == Addressed(channel, pieces) + [Payload(channel, piece)]
  {
  }

  class Notifier {
    const client: SlackClient
    const chunkSize: nat
    const monitorChannel: string
    /** Every line written to the loggers, oldest first. */
    ghost var Log: seq<LogLine>

    /** Process start-up: the webhook client, the chunk size and the channel
        are set once and never change. */
    constructor Init(webhook: string, channel: string)
      ensures fresh(client) && client.Webhook == webhook && client.History == []
      ensures chunkSize == SLACK_ATTACHMENTS_CHUNK_SIZE && monitorChannel == channel
      ensures Log == []
    {
      client := new SlackClient(webhook);
      chunkSize := SLACK_ATTACHMENTS_CHUNK_SIZE;
      monitorChannel := channel;
      Log := [];
    }

    /** Posts atts in pieces of at most chunkSize, in order, to the monitor
        channel, and logs each outcome; a failed post does not stop the next.
        With no attachments nothing is posted and one warning is logged. */
    method Dispatch(atts: seq<Attachment>)
      requires chunkSize > 0
      modifies this`Log, client`History
      ensures |client.History| >= |old(client.History)|
      ensures client.History[..|old(client.History)|] == old(client.History)
      ensures var ds := client.History[|old(client.History)|..];
        && PayloadsOf(ds) == Addressed(monitorChannel, Chunks(atts, chunkSize))
        && (atts != [] ==> Log == old(Log) + Reports(ds))
        && (atts == [] ==> Log == old(Log) + [Warning(NO_SLACK_SENT)])
    {
      var n := |atts|;
      if n != 0 {
        ghost var sent: seq<seq<Attachment>> := [];
        ghost var ds: seq<Delivery> := [];
        var i := 0;
        while i < n
          invariant 0 <= i
          invariant sent + Chunks(atts[Min(i, n)..], chunkSize) == Chunks(atts, chunkSize)
          invariant client.History == old(client.History) + ds
          invariant PayloadsOf(ds) == Addressed(monitorChannel, sent)
          invariant Log == old(Log) + Reports(ds)
          decreases n - i
        {
          var end := i + chunkSize;
          if end > n {
            end := n;
          }
          ChunksAdvance(atts, chunkSize, i, sent);
          var chunk := atts[i..end];
          var payload := Payload(monitorChannel, chunk);
          var result := client.Send(payload);
          if result.Failed? {
            Log := Log + [Error(result.error)];
          } else {
            Log := Log + [Info(result.response)];
          }
          PayloadsOfSnoc(ds, Delivery(payload, result));
          ReportsSnoc(ds, Delivery(payload, result));
          AddressedSnoc(monitorChannel, sent, chunk);
          sent := sent + [chunk];
          ds := ds + [Delivery(payload, result)];
          i := i + chunkSize;
        }
        assert atts[n..] == [];
        assert client.History[|old(client.History)|..] == ds;
      } else {
        Log := Log + [Warning(NO_SLACK_SENT)];
        assert client.History[|old(client.History)|..] == [];
      }
    }

    /** Handles one batch of SNS records and always reports success. The
        posts made are the attachments of the records, one per record and in
        record order, cut into the pieces Chunks gives (each of chunkSize
        attachments but possibly the last) and addressed to the monitor
        channel; each outcome is logged. */
    method HandleRequest(records: seq<SnsRecord>, functionName: string) returns (err: Option<string>)
      requires chunkSize > 0
      modifies this`Log, client`History
      ensures err == None
      ensures |client.History| >= |old(client.History)|
      ensures client.History[..|old(client.History)|] == old(client.History)
      ensures var ds := client.History[|old(client.History)|..];
        var ps := PayloadsOf(ds);
        && |ps| == (|records| + chunkSize - 1) / chunkSize
        && (forall k :: 0 <= k < |ps| ==> ps[k].Channel == monitorChannel && 0 < |ps[k].Attachments| <= chunkSize)
        && BuiltFrom(Flatten(AttachmentLists(ps)), records, functionName)
        && AttachmentLists(ps) == Chunks(Flatten(AttachmentLists(ps)), chunkSize)
        && (records != [] ==> Log == old(Log) + Reports(ds))
        && (records == [] ==> Log == old(Log) + [Warning(NO_SLACK_SENT)])
    {
      var atts := BuildAttachments(records, functionName);
      Dispatch(atts);
      PostedPayloads(monitorChannel, atts, chunkSize);
      err := None;
    }
  }
}
