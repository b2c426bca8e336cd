# CloudWatch alarm notifier: a Dafny model

The program is an AWS Lambda function subscribed to an SNS topic. Each
invocation receives a batch of SNS records. Each record's message is a
CloudWatch alarm notification. The handler turns every record into one Slack
attachment. The attachment is coloured by the alarm's new state and carries
six labelled fields. The handler then posts the attachments to a configured
Slack channel in pieces of at most 100, because Slack accepts no more than
that per post. Each post's outcome is logged, a failed post does not stop the
next one, and the handler always reports success.

The model has five modules:

- `Slack` (slack.dfy): the attachment, field and payload shapes the handler
  fills in, and the webhook client. `SlackClient.Send` appends each payload,
  with the outcome it got, to a ghost `History`. The outcome itself is left
  unconstrained.
- `Render` (render.dfy): how Go's `%v` prints an `int`, and a parser that
  reads that text back.
- `Alarm` (alarm.dfy): the alarm event and SNS record, the colour choice, the
  attachment for one record, and the loop that builds one attachment per
  record.
- `Chunking` (chunking.dfy): `Chunks`, the specification of the split into
  pieces of at most `c`, with lemmas for partition, order, bounds and count.
- `Handler` (handler.dfy): the `Notifier` class. Its constant fields hold the
  state `init` sets up: the client, the chunk size (100) and the channel.
  A ghost `Log` records the lines written to the three loggers. `Dispatch`
  is the chunk-and-send loop and `HandleRequest` is the whole handler.

The chunk size is kept general, any `c > 0`. The constructor sets it to 100,
and `HundredFiftyInTwo` works through 150 attachments at that size.

## Model

| member | source | states |
|---|---|---|
| `Alarm.Color` | main.go:97-102 | "ALARM" and only it gives "danger"; "INSUFFICIENT_DATA" and only it gives "warning"; every other state (including "OK" and "") gives "good" |
| `Alarm.BuildAttachment` | main.go:104-143 | the attachment shows the record: colour of its new state, subject as title, state reason as text, the footer and timestamp given, and exactly six short fields titled AccountID, Region, Period, Threshold, Evaluated Periods, Comparison Operator in that order, with values the account id, the region, text that reads back to the period, the threshold text, text that reads back to the evaluation periods, and the comparison operator |
| `Alarm.UndecodableRecord` | main.go:94-107 | a record whose message does not decode (the zero-valued event) still yields an attachment: colour "good", the record's subject, empty text, field values "", "", "0", "0", "0", "" |
| `Alarm.BuildAttachments` | main.go:91-145 | exactly one attachment per record, in record order; attachment i is record i's attachment with the given footer and the clock reading taken for it |
| `Render.FormatNat` | main.go:124 | the decimal text of a natural number is non-empty, all digits, and starts with '0' only for zero (no leading zeros) |
| `Render.FormatInt` | main.go:124 | the text of an int is non-empty and begins with '-' exactly when the int is negative; the rest is digits |
| `Render.ParseFormatInt` | main.go:133-135 | reading back the "%v" text of an int gives that int, so the Period and Evaluated Periods fields determine the trigger's values |
| `Chunking.Chunks` | main.go:150-156 | the list of pieces is empty exactly when the attachment list is empty |
| `Chunking.FlattenChunks` | main.go:150-156 | concatenating the pieces in order gives the original list: nothing dropped, duplicated or reordered |
| `Chunking.ChunkCount` | main.go:150 | there are ceil(n / c) pieces, (n + c - 1) / c |
| `Chunking.ChunkAt` | main.go:151-156 | piece k is the contiguous slice [k*c, min(k*c + c, n)) and starts inside the list |
| `Chunking.ChunkSizes` | main.go:151-156 | every piece is non-empty with at most c elements, and every piece but the last has exactly c |
| `Chunking.ChunksAdvance` | main.go:150-156 | after the pieces before index i are sent, sending [i, min(i + c, n)) and moving to i + c leaves exactly the remaining pieces |
| `Chunking.HundredFiftyInTwo` | main.go:150-156 | 150 attachments at chunk size 100 are posted as two pieces: the first 100, then the last 50 |
| `Slack.SlackClient.constructor` | main.go:80 | a new client holds the webhook and has sent nothing |
| `Slack.SlackClient.Send` | main.go:161 | a send appends the payload and the outcome it got to the history, with nothing else changed |
| `Handler.Report` | main.go:162-166 | a failed send is logged at error level with its error; a successful one at info level with its response |
| `Handler.PostedPayloads` | main.go:150-160 | the payloads for a list go to the one channel, each holds between 1 and c attachments, there are ceil(n / c) of them, and their attachments concatenated are the list |
| `Handler.Notifier.Init` | main.go:80-82 | start-up sets the client's webhook, a chunk size of 100 and the monitor channel |
| `Handler.Notifier.Dispatch` | main.go:147-170 | the payloads sent, in order, are the pieces of the list addressed to the monitor channel, whatever the outcomes; earlier history is kept; with a non-empty list one log line per send is written in send order; with an empty list nothing is sent and only the "No Slack Sent" warning is logged |
| `Handler.Notifier.HandleRequest` | main.go:90-172 | the handler returns nil (no error); it makes ceil(n / c) posts for n records, all to the monitor channel, each with 1 to c attachments; the posted attachments, concatenated, are one per record in record order, and the posts are exactly the pieces of that list, so every post but the last holds exactly c; each post's outcome is logged, and an empty batch only logs the warning |

## Left out

- JSON decoding of the SNS message (main.go:94-95) is not modelled. A record carries its message already decoded as an `AlarmEvent`. A message that is not valid JSON leaves every field zero, which is `ZERO_EVENT`. A field of the wrong JSON type stays zero while the other fields still decode. Either way the result is just another `AlarmEvent`.
- The threshold is a `float32` (main.go:63) printed with `%v` (main.go:129). The model keeps it as that printed text, because float32 formatting is not modelled. Its zero value prints as "0".
- `Period` and `EvaluationPeriods` are Go `int`s, which are 64 bits wide. They are unbounded integers here. The loop index `i` in main.go:150 cannot overflow in the model either.
- `time.Now()` (main.go:110) is `Alarm.UnixNow`, and its result is unconstrained. The truncation of nanoseconds to seconds is therefore not modelled.
- The environment reads of `AWS_LAMBDA_FUNCTION_NAME` (main.go:108), `SLACK_WEBHOOK` (main.go:80) and `SLACK_MONITOR_CHANNEL` (main.go:82) are parameters. The footer name is read once per invocation rather than once per record, since the environment does not change.
- The Slack HTTP client, its 10-second timeout and the actual delivery (main.go:80, 161) are outside the model. `Send`'s outcome is nondeterministic, and a response is kept as the text the logger prints for it.
- Logger construction, prefixes and flags (main.go:66-78) are not modelled. A logged line is modelled as its level and its text.
- `main` and `lambda.Start` (main.go:85-87) are not modelled, and neither is the unused `context.Context` argument.
- Handler.Notifier.Dispatch: requires a positive chunk size, which the Go code relies on `init` to provide; with a chunk size of 0 the Go loop would never end.
- Handler.Notifier.HandleRequest: requires a positive chunk size for the same reason, and `Init` establishes it.
